/** A room without counters: it keeps the registered clients and asks them whenever the real
    room consults a counter. The real room refines it. */
module RoomReference {
  import opened Collections
  import opened Clients
  import opened RoomSpec
  import opened RoomSafety
  import opened RoomDelivery

  datatype Ref = Ref(
    stopped: bool,
    clients: set<Client>,
    history: seq<Message>,
    mail: map<Client, Mail>,
    broadcasts: seq<Message>,
    published: int)

  function View(s: State): Ref {
    Ref(s.stopped, s.clients, s.history, s.mail, s.broadcasts, s.published)
  }

  /** The distinct viewers among the registered clients. */
  function Audience(r: Ref): set<string> {
    set c | c in r.clients && c.ViewerKey() != "" :: c.ViewerKey()
  }

  predicate NamePresent(r: Ref, u: string) {
    exists c :: c in r.clients && c.username == u
  }

  predicate ViewerPresent(r: Ref, k: string) {
    exists c :: c in r.clients && c.ViewerKey() == k
  }

  function RefDispatch(r: Ref, msg: Message, pace: Pace): Ref {
    r.(clients := r.clients - Missed(r.mail, r.clients, pace),
       mail := SentTo(r.mail, r.clients, msg, pace),
       broadcasts := r.broadcasts + [msg])
  }

  function RefDispatchIf(r: Ref, cond: bool, msg: Message, pace: Pace): Ref {
    if cond then RefDispatch(r, msg, pace) else r
  }

  /** Publishes and broadcasts the recount. */
  function RefRecount(r: Ref, pace: Pace): Ref {
    var n := |Audience(r)|;
    RefDispatch(r.(published := n), Viewers(n), pace)
  }

  function RefGreet(r: Ref, c: Client, k: nat): Ref {
    var d := At(r.mail, c).Drained(k);
    r.(mail := r.mail[c := if d.Full() then d else d.(log := d.log + [Viewers(|Audience(r)|)])])
  }

  function RefEnter(r: Ref, c: Client, newName: bool, newViewer: bool, pace1: Pace, pace2: Pace): Ref {
    var r2 := RefDispatchIf(r, newName, Joined(c.username), pace1);
    if newViewer then RefRecount(r2, pace2) else RefGreet(r2, c, PaceOf(pace2, c))
  }

  function RefJoin(r: Ref, c: Client, backlogPace: seq<nat>, pace1: Pace, pace2: Pace): Ref {
    var (m, fits) := Backlog(At(r.mail, c), r.history, backlogPace);
    if fits then
      RefEnter(r.(clients := r.clients + {c}, mail := r.mail[c := m]), c,
               c.username != "" && !NamePresent(r, c.username),
               c.ViewerKey() != "" && !ViewerPresent(r, c.ViewerKey()), pace1, pace2)
    else r.(mail := r.mail[c := m.(outClosed := true)])
  }

  function RefExit(r: Ref, c: Client, pace1: Pace, pace2: Pace): Ref {
    var r2 := RefDispatchIf(r, c.username != "" && !NamePresent(r, c.username), Left(c.username), pace1);
    if c.ViewerKey() != "" && !ViewerPresent(r, c.ViewerKey()) then RefRecount(r2, pace2) else r2
  }

  function RefLeave(r: Ref, c: Client, pace1: Pace, pace2: Pace): Ref {
    if c !in r.clients then r
    else RefExit(r.(clients := r.clients - {c}, mail := r.mail[c := Shut(At(r.mail, c))]), c, pace1, pace2)
  }

  function RefSend(r: Ref, m: Message, pace: Pace): Ref {
    RefDispatch(r.(history := Appended(r.history, m)), m, pace)
  }

  function RefStop(r: Ref): Ref {
    r.(stopped := true, clients := {},
       mail := map c | c in r.mail.Keys + r.clients :: if c in r.clients then Shut(At(r.mail, c)) else At(r.mail, c))
  }

  function RefStep(r: Ref, e: Event): Ref {
    if e.Receive? then r.(mail := r.mail[e.c := At(r.mail, e.c).Drained(e.k)])
    else if r.stopped then r
    else
      match e
      case Join(c, backlogPace, pace1, pace2) => RefJoin(r, c, backlogPace, pace1, pace2)
      case Leave(c, pace1, pace2) => RefLeave(r, c, pace1, pace2)
      case Send(id, user, body, pace) => RefSend(r, Chat(id, user, body), pace)
      case _ => RefStop(r)
  }

  function RefRun(r: Ref, es: seq<Event>): Ref {
    if es == [] then r else RefStep(RefRun(r, es[..|es| - 1]), es[|es| - 1])
  }

  // ---------------------------------------------------------------- refinement

  lemma AudienceCounted(s: State)
    requires Counted(s)
    ensures |Audience(View(s))| == |s.viewers|
  {
    assert Audience(View(s)) == s.viewers.Keys;
    assert |s.viewers.Keys| == |s.viewers|;
  }

  lemma RecountRefines(s: State, pace: Pace)
    requires Good(s)
    ensures Recount(s, pace).Some? && View(Recount(s, pace).value) == RefRecount(View(s), pace)
  {
    AudienceCounted(s);
    RecountKept(s, pace);
  }

  lemma DispatchIfView(s: State, cond: bool, msg: Message, pace: Pace)
    requires DispatchIf(s, cond, msg, pace).Some?
    ensures View(DispatchIf(s, cond, msg, pace).value) == RefDispatchIf(View(s), cond, msg, pace)
  {
  }

  lemma DispatchIfRefines(s: State, cond: bool, msg: Message, pace: Pace)
    requires Good(s) && !msg.Chat?
    ensures var t := DispatchIf(s, cond, msg, pace);
            t.Some? && Good(t.value) && View(t.value) == RefDispatchIf(View(s), cond, msg, pace)
  {
    hide Kept;
    hide DispatchIf;
    hide RefDispatchIf;
    DispatchIfKept(s, cond, msg, pace);
    DispatchIfView(s, cond, msg, pace);
  }

  lemma GreetRefines(s: State, c: Client, k: nat)
    requires Good(s) && Greet(s, c, k).Some?
    ensures View(Greet(s, c, k).value) == RefGreet(View(s), c, k)
  {
    AudienceCounted(s);
  }

  /** "First" in a counter is "nobody yet" among the clients, "last" is "nobody any more". */
  lemma FirstIsNew(w: Counter, cs: set<Client>, c: Client)
    requires c !in cs
    ensures var k := KeyOf(w, c);
            First(Tally(w, cs + {c}), k) <==> k != "" && !exists d :: d in cs && KeyOf(w, d) == k
  {
    var k := KeyOf(w, c);
    TallyKeys(w, cs, k);
    TallyKeys(w, cs + {c}, k);
    HoldersWith(w, cs, c, k);
  }

  lemma LastIsGone(w: Counter, cs: set<Client>, k: string)
    ensures Last(Tally(w, cs), k) <==> k != "" && !exists d :: d in cs && KeyOf(w, d) == k
  {
    TallyKeys(w, cs, k);
  }

  lemma EnterRefines(s: State, c: Client, pace1: Pace, pace2: Pace)
    requires Good(s) && c in s.clients && s.welcomes[c].start == |s.broadcasts|
    requires First(s.presence, c.username) ==> First(s.viewers, c.ViewerKey())
    ensures var t := Enter(s, c, pace1, pace2);
            var announced, counted := First(s.presence, c.username), First(s.viewers, c.ViewerKey());
            t.Some? && View(t.value) == RefEnter(View(s), c, announced, counted, pace1, pace2)
  {
    hide Recount;
    hide RefRecount;
    hide Greet;
    hide RefGreet;
    EnterKept(s, c, pace1, pace2);
    var announced := First(s.presence, c.username);
    DispatchIfRefines(s, announced, Joined(c.username), pace1);
    var s2 := DispatchIf(s, announced, Joined(c.username), pace1).value;
    if First(s.viewers, c.ViewerKey()) {
      RecountRefines(s2, pace2);
    } else {
      GreetRefines(s2, c, PaceOf(pace2, c));
    }
  }

  lemma RegisterFirst(s: State, c: Client, m: Mail)
    requires Counted(s) && c !in s.clients
    ensures var t := Register(s, c, m);
            && First(t.presence, c.username) == (c.username != "" && !NamePresent(View(s), c.username))
            && First(t.viewers, c.ViewerKey()) == (c.ViewerKey() != "" && !ViewerPresent(View(s), c.ViewerKey()))
  {
    BumpTally(ByViewer, s.clients, c);
    BumpTally(ByUser, s.clients, c);
    FirstIsNew(ByUser, s.clients, c);
    FirstIsNew(ByViewer, s.clients, c);
  }

  /** A registered client enters the same way in both rooms. */
  lemma RegisteredRefines(s: State, c: Client, m: Mail, pace1: Pace, pace2: Pace)
    requires Good(s) && c !in s.welcomes && m.Wf() && !m.outClosed && m.log == s.history
    ensures var t := Enter(Register(s, c, m), c, pace1, pace2);
            var r := View(s);
            t.Some? && View(t.value) == RefEnter(r.(clients := r.clients + {c}, mail := r.mail[c := m]), c,
                                                 c.username != "" && !NamePresent(r, c.username),
                                                 c.ViewerKey() != "" && !ViewerPresent(r, c.ViewerKey()), pace1, pace2)
  {
    RegisterCore(s, c, m);
    RegisterFirst(s, c, m);
    EnterRefines(Register(s, c, m), c, pace1, pace2);
  }

  lemma JoinAccepted(s: State, c: Client, m: Mail, backlogPace: seq<nat>, pace1: Pace, pace2: Pace)
    requires Backlog(At(s.mail, c), s.history, backlogPace) == (m, true) && !At(s.mail, c).outClosed
    ensures JoinStep(s, c, backlogPace, pace1, pace2) == Enter(Register(s, c, m), c, pace1, pace2)
    ensures var r := View(s);
            RefJoin(r, c, backlogPace, pace1, pace2)
            == RefEnter(r.(clients := r.clients + {c}, mail := r.mail[c := m]), c,
                        c.username != "" && !NamePresent(r, c.username),
                        c.ViewerKey() != "" && !ViewerPresent(r, c.ViewerKey()), pace1, pace2)
  {
  }

  lemma JoinRefines(s: State, c: Client, backlogPace: seq<nat>, pace1: Pace, pace2: Pace)
    requires Good(s) && c !in s.welcomes && At(s.mail, c) == NEW_MAIL
    ensures var t := JoinStep(s, c, backlogPace, pace1, pace2);
            t.Some? && View(t.value) == RefJoin(View(s), c, backlogPace, pace1, pace2)
  {
    BacklogSafe(NEW_MAIL, s.history, backlogPace);
    BacklogLog(NEW_MAIL, s.history, backlogPace);
    var (m, fits) := Backlog(NEW_MAIL, s.history, backlogPace);
    if fits {
      assert m.log == s.history;
      RegisteredRefines(s, c, m, pace1, pace2);
      JoinAccepted(s, c, m, backlogPace, pace1, pace2);
    }
  }

  lemma RemovedLast(s: State, k: string, u: string)
    requires Counted(s)
    ensures Last(s.presence, u) == (u != "" && !NamePresent(View(s), u))
    ensures Last(s.viewers, k) == (k != "" && !ViewerPresent(View(s), k))
  {
    LastIsGone(ByUser, s.clients, u);
    LastIsGone(ByViewer, s.clients, k);
  }

  lemma ExitRefines(s: State, c: Client, pace1: Pace, pace2: Pace)
    requires Good(s)
    ensures var t := Exit(s, c, pace1, pace2); t.Some? && View(t.value) == RefExit(View(s), c, pace1, pace2)
  {
    hide DispatchIf;
    hide RefDispatchIf;
    hide Recount;
    hide RefRecount;
    hide Last;
    RemovedLast(s, c.ViewerKey(), c.username);
    var announced := Last(s.presence, c.username);
    DispatchIfRefines(s, announced, Left(c.username), pace1);
    var s2 := DispatchIf(s, announced, Left(c.username), pace1).value;
    if Last(s.viewers, c.ViewerKey()) { RecountRefines(s2, pace2); }
  }

  lemma RemovedView(s: State, c: Client)
    requires c in s.mail
    ensures View(Removed(s, {c})) == View(s).(clients := s.clients - {c}, mail := s.mail[c := Shut(s.mail[c])])
  {
    assert Removed(s, {c}).mail == s.mail[c := Shut(s.mail[c])];
  }

  lemma RemovedRefines(s: State, c: Client, pace1: Pace, pace2: Pace)
    requires Good(s) && c in s.clients
    ensures var t := Exit(Removed(s, {c}), c, pace1, pace2);
            var r := View(s).(clients := s.clients - {c}, mail := s.mail[c := Shut(s.mail[c])]);
            t.Some? && View(t.value) == RefExit(r, c, pace1, pace2)
  {
    RemovedCore(s, {c});
    RemovedView(s, c);
    ExitRefines(Removed(s, {c}), c, pace1, pace2);
  }

  lemma LeaveAccepted(s: State, c: Client, pace1: Pace, pace2: Pace)
    requires c in s.clients && c in s.mail && !s.mail[c].outClosed && !s.mail[c].closed
    ensures LeaveStep(s, c, pace1, pace2) == Exit(Removed(s, {c}), c, pace1, pace2)
    ensures RefLeave(View(s), c, pace1, pace2)
         == RefExit(View(s).(clients := s.clients - {c}, mail := s.mail[c := Shut(s.mail[c])]), c, pace1, pace2)
  {
  }

  lemma LeaveRefines(s: State, c: Client, pace1: Pace, pace2: Pace)
    requires Good(s) && (c in s.clients || At(s.mail, c).closed)
    ensures var t := LeaveStep(s, c, pace1, pace2); t.Some? && View(t.value) == RefLeave(View(s), c, pace1, pace2)
  {
    if c in s.clients {
      RemovedRefines(s, c, pace1, pace2);
      LeaveAccepted(s, c, pace1, pace2);
    }
  }

  lemma SendRefines(s: State, m: Message, pace: Pace)
    requires Good(s) && m.Chat?
    ensures var t := SendStep(s, m, pace); t.Some? && View(t.value) == RefSend(View(s), m, pace)
  {
    SendKept(s, m, pace);
  }

  lemma StopRefines(s: State)
    requires Good(s)
    ensures var t := StopStep(s); t.Some? && View(t.value) == RefStop(View(s))
  {
    hide Drop;
    hide Tally;
    hide Lockstep;
    StopKept(s);
    StopTakesAll(s);
  }

  lemma StepRefines(s: State, e: Event)
    requires Good(s) && Guard(s, e)
    ensures Step(s, e).Some? && View(Step(s, e).value) == RefStep(View(s), e)
  {
    if !s.stopped {
      match e
      case Join(c, backlogPace, pace1, pace2) => JoinRefines(s, c, backlogPace, pace1, pace2);
      case Leave(c, pace1, pace2) => LeaveRefines(s, c, pace1, pace2);
      case Send(id, user, body, pace) => SendRefines(s, Chat(id, user, body), pace);
      case Stop => StopRefines(s);
      case _ =>
    }
  }

  /** In every lawful run the room with incremental counters sends the same messages to the same
      clients, evicts the same clients and publishes the same counts as the one that recounts
      from scratch, even when clients are evicted inside the broadcast that announces a change. */
  lemma {:induction false} RoomRefinesRecount(es: seq<Event>)
    requires Lawful(es)
    ensures Run(INIT, es).Some? && View(Run(INIT, es).value) == RefRun(View(INIT), es)
  {
    LawfulRunGood(es);
    if es != [] {
      var front := es[..|es| - 1];
      RoomRefinesRecount(front);
      LawfulRunGood(front);
      StepRefines(Run(INIT, front).value, es[|es| - 1]);
    }
  }
}
