/** What a room keeps: gap-free ordered delivery in every run in which nobody joins twice, and
    exact counters in every run that keeps to the discipline of its callers. */
module RoomDelivery {
  import opened Collections
  import opened Clients
  import opened RoomSpec
  import opened RoomSafety

  /** The discipline of ServeWS, as far as the room sees it: a join brings a new client, and a
      leave is handled only for a client that was accepted. */
  ghost predicate Guard(s: State, e: Event) {
    s.stopped ||
    match e
    case Join(c, _, _, _) => c !in s.welcomes && At(s.mail, c) == NEW_MAIL
    case Leave(c, _, _) => c in s.clients || At(s.mail, c).closed
    case _ => true
  }

  /** The chat messages among `ms`. */
  function Chats(ms: seq<Message>): seq<Message> {
    if ms == [] then []
    else Chats(ms[..|ms| - 1]) + if ms[|ms| - 1].Chat? then [ms[|ms| - 1]] else []
  }

  lemma ChatsSnoc(ms: seq<Message>, m: Message)
    ensures Chats(ms + [m]) == Chats(ms) + if m.Chat? then [m] else []
  {
    assert (ms + [m])[..|ms|] == ms;
  }

  lemma {:induction false} ChatsConcat(a: seq<Message>, b: seq<Message>)
    ensures Chats(a + b) == Chats(a) + Chats(b)
  {
    if b == [] {
      assert a + b == a;
    } else {
      var front, m := b[..|b| - 1], b[|b| - 1];
      assert a + b == (a + front) + [m];
      ChatsConcat(a, front);
      ChatsSnoc(a + front, m);
    }
  }

  // ---------------------------------------------------------------- the invariant

  ghost predicate Counted(s: State) {
    s.viewers == Tally(ByViewer, s.clients) && s.presence == Tally(ByUser, s.clients)
  }

  /** What client `c` was due: its opening, then every broadcast since it joined. */
  ghost function Due(s: State, c: Client): seq<Message>
    requires c in s.welcomes && s.welcomes[c].start <= |s.broadcasts|
  {
    s.welcomes[c].opening + s.broadcasts[s.welcomes[c].start..]
  }

  ghost predicate Faithful(s: State, c: Client)
    requires c in s.welcomes
  {
    var w, log := s.welcomes[c], At(s.mail, c).log;
    && w.start <= |s.broadcasts|
    && log <= Due(s, c)
    && (c in s.clients ==> log == Due(s, c))
    && Chats(w.opening) == Tail(Chats(s.broadcasts[..w.start]), HISTORY_SIZE)
  }

  ghost predicate Delivered(s: State) {
    forall c :: c in s.welcomes ==> Faithful(s, c)
  }

  /** A client that has not joined was sent nothing; at most, its leave came first. */
  ghost predicate Unmet(s: State) {
    forall c :: c in s.mail && c !in s.welcomes ==> s.mail[c].log == [] && s.mail[c].outClosed == s.mail[c].closed
  }

  ghost predicate Core(s: State) {
    Safe(s) && Delivered(s) && Unmet(s)
  }

  /** The history array is the last HISTORY_SIZE chat messages ever broadcast. */
  ghost predicate Chronicle(s: State) {
    s.history == Tail(Chats(s.broadcasts), HISTORY_SIZE)
  }

  ghost predicate Kept(s: State) {
    Core(s) && Chronicle(s)
  }

  ghost predicate Good(s: State) {
    Kept(s) && Counted(s)
  }

  // ---------------------------------------------------------------- one operation at a time

  /** A change that leaves a client's log and welcome alone leaves its delivery alone. */
  lemma StillFaithful(s: State, t: State, c: Client)
    requires c in s.welcomes && Faithful(s, c)
    requires t.broadcasts == s.broadcasts && c in t.welcomes && t.welcomes[c] == s.welcomes[c]
    requires At(t.mail, c).log == At(s.mail, c).log && (c in t.clients ==> c in s.clients)
    ensures Faithful(t, c)
  {
  }

  lemma LogAfterDispatch(s: State, msg: Message, pace: Pace, c: Client)
    requires Safe(s)
    ensures Dispatch(s, msg, pace).Some?
    ensures var t := Dispatch(s, msg, pace).value;
            && t.welcomes == s.welcomes && t.broadcasts == s.broadcasts + [msg] && t.clients <= s.clients
            && At(t.mail, c).log == At(s.mail, c).log + if c in t.clients then [msg] else []
  {
    hide Drop;
    hide Lockstep;
    NoneClosed(s);
  }

  lemma FaithfulAfterDispatch(s: State, msg: Message, pace: Pace, c: Client)
    requires Safe(s) && c in s.welcomes && Faithful(s, c)
    ensures var t := Dispatch(s, msg, pace); t.Some? && c in t.value.welcomes && Faithful(t.value, c)
  {
    hide Safe;
    hide Dispatch;
    hide At;
    LogAfterDispatch(s, msg, pace, c);
    var t := Dispatch(s, msg, pace).value;
    var w := s.welcomes[c];
    assert Faithful(s, c);
    assert t.broadcasts[w.start..] == s.broadcasts[w.start..] + [msg];
    assert t.broadcasts[..w.start] == s.broadcasts[..w.start];
    assert Due(t, c) == Due(s, c) + [msg];
  }

  lemma DispatchUnmet(s: State, msg: Message, pace: Pace)
    requires Safe(s) && Unmet(s)
    ensures Dispatch(s, msg, pace).Some? && Unmet(Dispatch(s, msg, pace).value)
  {
    hide Drop;
    hide Lockstep;
    NoneClosed(s);
  }

  lemma DispatchCounted(s: State, msg: Message, pace: Pace)
    requires Counted(s) && Dispatch(s, msg, pace).Some?
    ensures Counted(Dispatch(s, msg, pace).value)
  {
    var gone := Missed(s.mail, s.clients, pace);
    DropTally(ByViewer, s.clients, gone);
    DropTally(ByUser, s.clients, gone);
  }

  lemma DispatchCore(s: State, msg: Message, pace: Pace)
    requires Core(s)
    ensures var t := Dispatch(s, msg, pace);
            && t.Some? && Core(t.value) && (Counted(s) ==> Counted(t.value))
            && (!msg.Chat? && Chronicle(s) ==> Chronicle(t.value))
            && t.value.welcomes == s.welcomes && t.value.history == s.history && t.value.stopped == s.stopped
  {
    hide Unmet;
    hide Counted;
    DispatchSafe(s, msg, pace);
    DispatchUnmet(s, msg, pace);
    if Counted(s) { DispatchCounted(s, msg, pace); }
    ChatsSnoc(s.broadcasts, msg);
    forall c | c in s.welcomes ensures Faithful(Dispatch(s, msg, pace).value, c) {
      FaithfulAfterDispatch(s, msg, pace, c);
    }
  }

  /** Announcements and counts leave the chat history as it is. */
  lemma DispatchIfKept(s: State, cond: bool, msg: Message, pace: Pace)
    requires Kept(s) && !msg.Chat?
    ensures var t := DispatchIf(s, cond, msg, pace);
            t.Some? && Kept(t.value) && (Counted(s) ==> Counted(t.value)) && (!cond ==> t.value == s)
  {
    if cond { DispatchCore(s, msg, pace); }
  }

  lemma PublishKept(s: State)
    requires Kept(s)
    ensures Kept(Publish(s)) && (Counted(s) ==> Counted(Publish(s)))
  {
    forall c | c in s.welcomes ensures Faithful(Publish(s), c) { StillFaithful(s, Publish(s), c); }
  }

  lemma RecountKept(s: State, pace: Pace)
    requires Kept(s)
    ensures var t := Recount(s, pace); t.Some? && Kept(t.value) && (Counted(s) ==> Counted(t.value))
  {
    PublishKept(s);
    DispatchIfKept(Publish(s), true, Viewers(|s.viewers|), pace);
  }

  lemma {:induction false} BacklogLog(m: Mail, history: seq<Message>, pace: seq<nat>)
    ensures var (r, fits) := Backlog(m, history, pace);
            m.log <= r.log <= m.log + history && (fits ==> r.log == m.log + history)
    decreases |history|
  {
    if history != [] {
      var d := m.Drained(if pace == [] then 0 else pace[0]);
      if !d.Full() {
        assert d.log + [history[0]] + history[1..] == d.log + history;
        BacklogLog(d.(log := d.log + [history[0]]), history[1..], if pace == [] then [] else pace[1..]);
      }
    }
  }

  lemma {:induction false} AllChats(ms: seq<Message>)
    ensures forall m :: m in Chats(ms) ==> m.Chat?
  {
    if ms != [] { AllChats(ms[..|ms| - 1]); }
  }

  lemma {:induction false} ChatsOfChats(ms: seq<Message>)
    requires forall m :: m in ms ==> m.Chat?
    ensures Chats(ms) == ms
  {
    if ms != [] { ChatsOfChats(ms[..|ms| - 1]); }
  }

  /** The backlog a newcomer gets is the recent chat. */
  lemma HistoryIsChat(s: State)
    requires Chronicle(s)
    ensures Chats(s.history) == Tail(Chats(s.broadcasts[..|s.broadcasts|]), HISTORY_SIZE)
  {
    AllChats(s.broadcasts);
    ChatsOfChats(s.history);
    assert s.broadcasts[..|s.broadcasts|] == s.broadcasts;
  }

  lemma RegisterCore(s: State, c: Client, m: Mail)
    requires Kept(s) && c !in s.welcomes && m.Wf() && !m.outClosed && m.log == s.history
    ensures Kept(Register(s, c, m)) && (Counted(s) ==> Counted(Register(s, c, m)))
    ensures var t := Register(s, c, m);
            t.welcomes[c].start == |t.broadcasts| && (First(t.presence, c.username) ==> First(t.viewers, c.ViewerKey()))
  {
    var t := Register(s, c, m);
    RegisterSafe(s, c, m);
    BumpTally(ByViewer, s.clients, c);
    BumpTally(ByUser, s.clients, c);
    HistoryIsChat(s);
    if c.username != "" { AnnouncedIsCounted(s, c, m); }
    forall d | d in t.welcomes ensures Faithful(t, d) {
      if d in s.welcomes { StillFaithful(s, t, d); }
    }
  }

  lemma RejectCore(s: State, c: Client, m: Mail)
    requires Kept(s) && c !in s.welcomes && m.Wf() && m.log <= s.history
    ensures Kept(Reject(s, c, m)) && (Counted(s) ==> Counted(Reject(s, c, m)))
  {
    var t := Reject(s, c, m);
    RejectSafe(s, c, m);
    HistoryIsChat(s);
    forall d | d in t.welcomes ensures Faithful(t, d) {
      if d in s.welcomes { StillFaithful(s, t, d); }
    }
  }

  lemma FaithfulAfterGreet(s: State, c: Client, k: nat)
    requires c in s.clients && c in s.welcomes && Faithful(s, c) && s.welcomes[c].start == |s.broadcasts|
    requires Greet(s, c, k).Some?
    ensures var t := Greet(s, c, k).value; c in t.welcomes && Faithful(t, c)
  {
    var t := Greet(s, c, k).value;
    if At(s.mail, c).Drained(k).Full() {
      StillFaithful(s, t, c);
    } else {
      var w, msg := s.welcomes[c], Viewers(|s.viewers|);
      assert s.broadcasts[w.start..] == [];
      assert At(s.mail, c).log == w.opening;
      assert Due(t, c) == w.opening + [msg] == At(t.mail, c).log;
      ChatsSnoc(w.opening, msg);
    }
  }

  lemma FaithfulBesideGreet(s: State, c: Client, k: nat, d: Client)
    requires c in s.clients && d in s.welcomes && Faithful(s, d) && d != c && Greet(s, c, k).Some?
    ensures var t := Greet(s, c, k).value; d in t.welcomes && Faithful(t, d)
  {
    StillFaithful(s, Greet(s, c, k).value, d);
  }

  lemma GreetUnmet(s: State, c: Client, k: nat)
    requires Unmet(s) && c in s.welcomes && Greet(s, c, k).Some?
    ensures Unmet(Greet(s, c, k).value)
  {
  }

  lemma GreetKept(s: State, c: Client, k: nat)
    requires Kept(s) && c in s.clients && s.welcomes[c].start == |s.broadcasts|
    ensures Greet(s, c, k).Some? && Kept(Greet(s, c, k).value) && (Counted(s) ==> Counted(Greet(s, c, k).value))
  {
    hide Tally;
    hide Faithful;
    hide Lockstep;
    hide Unmet;
    GreetSafe(s, c, k);
    GreetUnmet(s, c, k);
    FaithfulAfterGreet(s, c, k);
    var t := Greet(s, c, k).value;
    forall d | d in t.welcomes && d != c ensures Faithful(t, d) {
      FaithfulBesideGreet(s, c, k, d);
    }
  }

  lemma RemovedCore(s: State, gone: set<Client>)
    requires Core(s) && forall c :: c in gone ==> At(s.mail, c).Wf()
    ensures Core(Removed(s, gone)) && (gone <= s.clients && Counted(s) ==> Counted(Removed(s, gone)))
  {
    RemovedSafe(s, gone);
    if gone <= s.clients {
      DropTally(ByViewer, s.clients, gone);
      DropTally(ByUser, s.clients, gone);
    }
    forall c | c in s.welcomes ensures Faithful(Removed(s, gone), c) {
      StillFaithful(s, Removed(s, gone), c);
    }
  }

  // ---------------------------------------------------------------- one step

  lemma EnterKept(s: State, c: Client, pace1: Pace, pace2: Pace)
    requires Kept(s) && c in s.clients && s.welcomes[c].start == |s.broadcasts|
    requires First(s.presence, c.username) ==> First(s.viewers, c.ViewerKey())
    ensures var r := Enter(s, c, pace1, pace2); r.Some? && Kept(r.value) && (Counted(s) ==> Counted(r.value))
  {
    var announced := First(s.presence, c.username);
    DispatchIfKept(s, announced, Joined(c.username), pace1);
    var s2 := DispatchIf(s, announced, Joined(c.username), pace1).value;
    if First(s.viewers, c.ViewerKey()) {
      RecountKept(s2, pace2);
    } else {
      GreetKept(s, c, PaceOf(pace2, c));
    }
  }

  lemma ExitKept(s: State, c: Client, pace1: Pace, pace2: Pace)
    requires Kept(s)
    ensures var r := Exit(s, c, pace1, pace2); r.Some? && Kept(r.value) && (Counted(s) ==> Counted(r.value))
  {
    var announced := Last(s.presence, c.username);
    DispatchIfKept(s, announced, Left(c.username), pace1);
    var s2 := DispatchIf(s, announced, Left(c.username), pace1).value;
    if Last(s.viewers, c.ViewerKey()) { RecountKept(s2, pace2); }
  }

  lemma JoinKept(s: State, c: Client, backlogPace: seq<nat>, pace1: Pace, pace2: Pace)
    requires Kept(s) && c !in s.welcomes && At(s.mail, c) == NEW_MAIL
    ensures var r := JoinStep(s, c, backlogPace, pace1, pace2);
            r.Some? && Kept(r.value) && (Counted(s) ==> Counted(r.value))
  {
    BacklogSafe(NEW_MAIL, s.history, backlogPace);
    BacklogLog(NEW_MAIL, s.history, backlogPace);
    var (m, fits) := Backlog(NEW_MAIL, s.history, backlogPace);
    assert NEW_MAIL.log + s.history == s.history;
    if fits {
      RegisterCore(s, c, m);
      EnterKept(Register(s, c, m), c, pace1, pace2);
    } else {
      RejectCore(s, c, m);
    }
  }

  /** An early leave spoils the counters, but not delivery. */
  lemma LeaveKept(s: State, c: Client, pace1: Pace, pace2: Pace)
    requires Kept(s) && (At(s.mail, c).outClosed ==> At(s.mail, c).closed)
    ensures var r := LeaveStep(s, c, pace1, pace2);
            && r.Some? && Kept(r.value)
            && (Counted(s) && (c in s.clients || At(s.mail, c).closed) ==> Counted(r.value))
  {
    if !At(s.mail, c).closed {
      RemovedCore(s, {c});
      ExitKept(Removed(s, {c}), c, pace1, pace2);
    }
  }

  lemma AppendedIsTail(h: seq<Message>, all: seq<Message>, m: Message)
    requires h == Tail(all, HISTORY_SIZE)
    ensures Appended(h, m) == Tail(all + [m], HISTORY_SIZE)
  {
  }

  lemma SendKept(s: State, m: Message, pace: Pace)
    requires Kept(s) && m.Chat?
    ensures var r := SendStep(s, m, pace); r.Some? && Kept(r.value) && (Counted(s) ==> Counted(r.value))
  {
    var h := s.(history := Appended(s.history, m));
    assert Core(h) by {
      forall c | c in s.welcomes ensures Faithful(h, c) { StillFaithful(s, h, c); }
    }
    DispatchCore(h, m, pace);
    ChatsSnoc(s.broadcasts, m);
    AppendedIsTail(s.history, Chats(s.broadcasts), m);
  }

  lemma StopKept(s: State)
    requires Kept(s)
    ensures var r := StopStep(s); r.Some? && Kept(r.value) && (Counted(s) ==> Counted(r.value))
  {
    StopTakesAll(s);
    RemovedCore(s, s.clients);
    var t := StopStep(s).value;
    forall c | c in t.welcomes ensures Faithful(t, c) { StillFaithful(s, t, c); }
  }

  lemma ReceiveKept(s: State, c: Client, k: nat)
    requires Kept(s)
    ensures var t := Step(s, Receive(c, k)).value; Kept(t) && (Counted(s) ==> Counted(t))
  {
    hide Tally;
    hide Lockstep;
    hide Faithful;
    var t := Step(s, Receive(c, k)).value;
    forall d | d in t.welcomes ensures Faithful(t, d) { StillFaithful(s, t, d); }
  }

  /** A first join that does not panic finds a new queue. */
  lemma JoinFindsNew(s: State, c: Client)
    requires Kept(s) && c !in s.welcomes && !At(s.mail, c).outClosed
    ensures At(s.mail, c) == NEW_MAIL
  {
  }

  lemma KeptIsSafe(s: State)
    requires Kept(s)
    ensures Safe(s)
  {
  }

  /** Any step that does not panic keeps delivery, as long as nobody joins twice. */
  lemma StepKept(s: State, e: Event)
    requires Kept(s) && JoinsOnce(s, e) && Step(s, e).Some?
    ensures Kept(Step(s, e).value)
  {
    hide Kept;
    if e.Receive? {
      ReceiveKept(s, e.c, e.k);
    } else if !s.stopped {
      assert Safe(s) by { KeptIsSafe(s); }
      StepExact(s, e);
      match e
      case Join(c, backlogPace, pace1, pace2) =>
        JoinFindsNew(s, c);
        JoinKept(s, c, backlogPace, pace1, pace2);
      case Leave(c, pace1, pace2) => LeaveKept(s, c, pace1, pace2);
      case Send(id, user, body, pace) => SendKept(s, Chat(id, user, body), pace);
      case _ => StopKept(s);
    }
  }

  lemma StepGood(s: State, e: Event)
    requires Good(s) && Guard(s, e)
    ensures Step(s, e).Some? && Good(Step(s, e).value)
  {
    match e
    case Receive(c, k) => ReceiveKept(s, c, k);
    case Join(c, backlogPace, pace1, pace2) => if !s.stopped { JoinKept(s, c, backlogPace, pace1, pace2); }
    case Leave(c, pace1, pace2) => if !s.stopped { LeaveKept(s, c, pace1, pace2); }
    case Send(id, user, body, pace) => if !s.stopped { SendKept(s, Chat(id, user, body), pace); }
    case Stop => if !s.stopped { StopKept(s); }
  }

  // ---------------------------------------------------------------- every run

  lemma {:induction false} RunKept(es: seq<Event>)
    requires JoinOnceRun(es) && Run(INIT, es).Some?
    ensures Kept(Run(INIT, es).value)
  {
    if es != [] {
      var front := es[..|es| - 1];
      RunKept(front);
      StepFromRun(es);
      StepKept(Run(INIT, front).value, es[|es| - 1]);
    }
  }

  // ---------------------------------------------------------------- every lawful run

  ghost predicate Lawful(es: seq<Event>) {
    es == [] ||
    var front := es[..|es| - 1];
    Lawful(front) && Run(INIT, front).Some? && Guard(Run(INIT, front).value, es[|es| - 1])
  }

  lemma LawfulSnoc(es: seq<Event>, e: Event)
    ensures Lawful(es + [e]) <==> Lawful(es) && Run(INIT, es).Some? && Guard(Run(INIT, es).value, e)
    ensures Run(INIT, es).Some? ==> Run(INIT, es + [e]) == Step(Run(INIT, es).value, e)
  {
    assert (es + [e])[..|es|] == es;
  }

  lemma {:induction false} LawfulRunGood(es: seq<Event>)
    requires Lawful(es)
    ensures Run(INIT, es).Some? && Good(Run(INIT, es).value)
  {
    if es != [] {
      var front := es[..|es| - 1];
      LawfulRunGood(front);
      StepGood(Run(INIT, front).value, es[|es| - 1]);
    }
  }

  /** A new client can join after any lawful run of a room that was not stopped. */
  lemma NewcomerLawful(es: seq<Event>, join: Event)
    requires Lawful(es) && Run(INIT, es).Some? && !Run(INIT, es).value.stopped && join.Join?
    requires join.c !in Run(INIT, es).value.welcomes && At(Run(INIT, es).value.mail, join.c) == NEW_MAIL
    ensures Lawful(es + [join]) && Run(INIT, es + [join]).Some?
    ensures join.c in Run(INIT, es + [join]).value.welcomes
  {
    hide Step;
    hide Run;
    hide Lawful;
    LawfulSnoc(es, join);
    LawfulRunGood(es);
    var s := Run(INIT, es).value;
    StepGood(s, join);
    StepExact(s, join);
  }

  /** The number of chat messages sent before client `c` joined, less the backlog it was given. */
  ghost function FirstDue(s: State, c: Client): nat
    requires c in s.welcomes && s.welcomes[c].start <= |s.broadcasts|
  {
    var before := |Chats(s.broadcasts[..s.welcomes[c].start])|;
    if before <= HISTORY_SIZE then 0 else before - HISTORY_SIZE
  }

  lemma TailThen<T>(early: seq<T>, late: seq<T>, n: nat)
    ensures var from := if |early| <= n then 0 else |early| - n;
            Tail(early, n) + late == (early + late)[from..]
  {
  }

  lemma DueChats(s: State, c: Client)
    requires c in s.welcomes && Faithful(s, c)
    ensures FirstDue(s, c) <= |Chats(s.broadcasts)|
    ensures Chats(Due(s, c)) == Chats(s.broadcasts)[FirstDue(s, c)..]
  {
    var w := s.welcomes[c];
    var early, late := s.broadcasts[..w.start], s.broadcasts[w.start..];
    assert s.broadcasts == early + late;
    ChatsConcat(early, late);
    ChatsConcat(w.opening, late);
    TailThen(Chats(early), Chats(late), HISTORY_SIZE);
  }

  lemma ChatsPrefix(a: seq<Message>, b: seq<Message>)
    requires a <= b
    ensures Chats(a) <= Chats(b)
  {
    assert b == a + b[|a|..];
    ChatsConcat(a, b[|a|..]);
  }

  /** Everybody sees the same order: two registered clients got the same broadcasts, chat or
      not, in the same order since the later of their joins. */
  lemma SameOrder(es: seq<Event>, c: Client, d: Client)
    requires JoinOnceRun(es) && Run(INIT, es).Some?
    requires var s := Run(INIT, es).value;
             && c in s.clients && d in s.clients && c in s.welcomes && d in s.welcomes
             && s.welcomes[c].start <= s.welcomes[d].start
    ensures var s := Run(INIT, es).value;
            var since := |s.welcomes[d].opening|;
            var lag := |s.welcomes[c].opening| + s.welcomes[d].start - s.welcomes[c].start;
            && since <= |At(s.mail, d).log| && lag <= |At(s.mail, c).log|
            && At(s.mail, c).log[lag..] == At(s.mail, d).log[since..]
  {
    RunKept(es);
    var s := Run(INIT, es).value;
    assert Faithful(s, c) && Faithful(s, d);
    var start := s.welcomes[d].start;
    assert s.broadcasts[s.welcomes[c].start..][start - s.welcomes[c].start..] == s.broadcasts[start..];
  }

  lemma TallyMeans(w: Counter, cs: set<Client>, k: string)
    ensures k in Tally(w, cs) <==> exists c :: c in cs && KeyOf(w, c) == k && k != ""
    ensures k in Tally(w, cs) ==> Tally(w, cs)[k] == |set c | c in cs && KeyOf(w, c) == k| > 0
  {
    TallyKeys(w, cs, k);
    if k in Tally(w, cs) {
      assert Holders(w, cs, k) == set c | c in cs && KeyOf(w, c) == k;
    }
  }

  /** The counters are what a recount of the registered clients gives, at every step boundary:
      a key or name is there exactly while somebody holds it, with the number of holders. */
  lemma CountersExact(es: seq<Event>, w: Counter, k: string)
    requires Lawful(es) && Run(INIT, es).Some?
    ensures var s := Run(INIT, es).value;
            var counts := if w.ByViewer? then s.viewers else s.presence;
            && (k in counts <==> exists c :: c in s.clients && KeyOf(w, c) == k && k != "")
            && (k in counts ==> counts[k] == |set c | c in s.clients && KeyOf(w, c) == k| > 0)
  {
    LawfulRunGood(es);
    TallyMeans(w, Run(INIT, es).value.clients, k);
  }

  lemma StopEmpties(s: State)
    requires Good(s) && !s.stopped
    ensures Step(s, Stop).Some?
    ensures var t := Step(s, Stop).value;
            && t.stopped && t.clients == {} && t.viewers == map[] && t.presence == map[]
            && forall c :: c in s.clients ==> At(t.mail, c).outClosed && At(t.mail, c).closed
  {
    hide Drop;
    StopKept(s);
    StopTakesAll(s);
    assert Keys(ByViewer, {}) == {} && Keys(ByUser, {}) == {};
  }

  /** After Stop nobody is registered, both counters are empty, and every queue that was
      registered is closed. */
  lemma StopClears(es: seq<Event>)
    requires Lawful(es) && Run(INIT, es).Some? && !Run(INIT, es).value.stopped
    ensures var s := Run(INIT, es).value;
            && Run(INIT, es + [Stop]).Some?
            && var t := Run(INIT, es + [Stop]).value;
               && t.stopped && t.clients == {} && t.viewers == map[] && t.presence == map[]
               && forall c :: c in s.clients ==> At(t.mail, c).outClosed && At(t.mail, c).closed
  {
    assert (es + [Stop])[..|es|] == es;
    LawfulRunGood(es);
    StopEmpties(Run(INIT, es).value);
  }
}
