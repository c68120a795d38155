/** The cached viewer count: never too low, and when exactly it is too high. */
module RoomCount {
  import opened Collections
  import opened Clients
  import opened RoomSpec
  import opened RoomSafety
  import opened RoomDelivery
  import opened RoomPresence

  /** The cached count is the number of keys at the last publish, which are still all of them. */
  ghost predicate Published(s: State) {
    s.viewers.Keys <= s.counted && s.published == |s.counted|
  }

  ghost predicate Fresh(s: State) {
    s.published == |s.viewers|
  }

  /** The keys counted are those of the last publish. */
  ghost predicate Current(s: State) {
    s.viewers.Keys == s.counted
  }

  lemma FreshIsCurrent(s: State)
    requires Published(s)
    ensures Fresh(s) <==> Current(s)
  {
    SubsetSize(s.viewers.Keys, s.counted);
    assert |s.viewers| == |s.viewers.Keys|;
  }

  // ---------------------------------------------------------------- what makes it too high

  /** Who is registered when a broadcast, or stop, begins, and whom it removes. */
  datatype Round = Round(present: set<Client>, gone: set<Client>)

  const NO_ROUND := Round({}, {})

  /** `c` counts, and none of the others is the same viewer. */
  predicate OnlyOne(c: Client, others: set<Client>) {
    Counts(c) && forall d :: d in others ==> !SameViewer(c, d)
  }

  /** Some client that goes is the last connection of its viewer. */
  predicate LosesViewer(r: Round) {
    exists c :: c in r.gone && OnlyOne(c, r.present - r.gone)
  }

  /** A broadcast removes the clients whose queue it finds full. */
  function RoundOf(s: State, pace: Pace): Round {
    Round(s.clients, Missed(s.mail, s.clients, pace))
  }

  /** The last broadcast after a registration, and after a removal. */
  function LastOfEnter(s: State, c: Client, pace1: Pace, pace2: Pace): Round {
    var s2 := DispatchIf(s, First(s.presence, c.username), Joined(c.username), pace1);
    if First(s.viewers, c.ViewerKey()) && s2.Some? then RoundOf(s2.value, pace2) else NO_ROUND
  }

  function LastOfExit(s: State, c: Client, pace1: Pace, pace2: Pace): Round {
    var s2 := DispatchIf(s, Last(s.presence, c.username), Left(c.username), pace1);
    if Last(s.viewers, c.ViewerKey()) && s2.Some? then RoundOf(s2.value, pace2) else NO_ROUND
  }

  /** The last broadcast of a step. A reconnect's greeting removes nobody. */
  function LastRound(s: State, e: Event): Round {
    if s.stopped then NO_ROUND
    else
      match e
      case Join(c, backlogPace, pace1, pace2) =>
        var (m, fits) := Backlog(At(s.mail, c), s.history, backlogPace);
        if fits then LastOfEnter(Register(s, c, m), c, pace1, pace2) else NO_ROUND
      case Leave(c, pace1, pace2) =>
        if At(s.mail, c).closed then NO_ROUND else LastOfExit(Removed(s, {c}), c, pace1, pace2)
      case Send(_, _, _, pace) => RoundOf(s, pace)
      case Stop => Round(s.clients, s.clients)
      case Receive(_, _) => NO_ROUND
  }

  /** The step brings a new viewer or takes the last connection of one, by a join or a leave. */
  predicate Publishes(s: State, e: Event) {
    !s.stopped &&
    match e
    case Join(c, backlogPace, _, _) =>
      Backlog(At(s.mail, c), s.history, backlogPace).1 && OnlyOne(c, s.clients)
    case Leave(c, _, _) => c in s.clients && OnlyOne(c, s.clients - {c})
    case _ => false
  }

  // ---------------------------------------------------------------- one operation at a time

  lemma OnlyOneKey(c: Client, others: set<Client>)
    ensures OnlyOne(c, others) <==> c.ViewerKey() != "" && c.ViewerKey() !in Keys(ByViewer, others)
  {
    forall d: Client | d in others
      ensures c.ViewerKey() != "" <==> Counts(c)
      ensures Counts(c) ==> (c.ViewerKey() == d.ViewerKey() <==> SameViewer(c, d))
    {
      KeyIsViewer(c, d);
    }
    KeyIsViewer(c, c);
    if d :| d in others && SameViewer(c, d) && Counts(c) {
      assert KeyOf(ByViewer, d) in Keys(ByViewer, others);
    }
  }

  lemma KeysLost(cs: set<Client>, gone: set<Client>)
    requires gone <= cs
    ensures Keys(ByViewer, cs - gone) <= Keys(ByViewer, cs)
    ensures Keys(ByViewer, cs - gone) == Keys(ByViewer, cs) <==> !LosesViewer(Round(cs, gone))
  {
    if LosesViewer(Round(cs, gone)) {
      var c :| c in gone && OnlyOne(c, cs - gone);
      OnlyOneKey(c, cs - gone);
      assert KeyOf(ByViewer, c) in Keys(ByViewer, cs);
    } else {
      forall k | k in Keys(ByViewer, cs) ensures k in Keys(ByViewer, cs - gone) {
        var c :| c in cs && KeyOf(ByViewer, c) == k && k != "";
        OnlyOneKey(c, cs - gone);
        if c in gone { assert !OnlyOne(c, cs - gone); }
      }
    }
  }

  lemma DispatchCurrent(s: State, msg: Message, pace: Pace)
    requires Counted(s) && Dispatch(s, msg, pace).Some?
    ensures var t := Dispatch(s, msg, pace).value;
            && Counted(t) && t.counted == s.counted && t.published == s.published
            && t.viewers.Keys <= s.viewers.Keys
            && (t.viewers.Keys == s.viewers.Keys <==> !LosesViewer(RoundOf(s, pace)))
  {
    hide LosesViewer;
    hide Drop;
    var gone := Missed(s.mail, s.clients, pace);
    DispatchCounted(s, msg, pace);
    KeysLost(s.clients, gone);
    assert s.viewers.Keys == Keys(ByViewer, s.clients);
    assert Dispatch(s, msg, pace).value.viewers.Keys == Keys(ByViewer, s.clients - gone);
  }

  /** A publish and its broadcast. */
  lemma RecountCurrent(s: State, pace: Pace)
    requires Counted(s) && Recount(s, pace).Some?
    ensures var t := Recount(s, pace).value;
            Published(t) && (Current(t) <==> !LosesViewer(RoundOf(s, pace)))
  {
    hide LosesViewer;
    DispatchCurrent(Publish(s), Viewers(|s.viewers|), pace);
  }

  lemma NothingLost()
    ensures !LosesViewer(NO_ROUND)
  {
  }

  lemma DispatchIfCounted(s: State, cond: bool, msg: Message, pace: Pace)
    requires Counted(s) && DispatchIf(s, cond, msg, pace).Some?
    ensures Counted(DispatchIf(s, cond, msg, pace).value)
  {
    if cond { DispatchCounted(s, msg, pace); }
  }

  lemma EnterCurrent(s: State, c: Client, pace1: Pace, pace2: Pace)
    requires Counted(s) && Enter(s, c, pace1, pace2).Some?
    requires First(s.viewers, c.ViewerKey()) || (Published(s) && !First(s.presence, c.username))
    ensures var t := Enter(s, c, pace1, pace2).value;
            && Published(t)
            && (Current(t) <==> (First(s.viewers, c.ViewerKey()) || Current(s))
                                && !LosesViewer(LastOfEnter(s, c, pace1, pace2)))
  {
    hide LosesViewer;
    hide RoundOf;
    hide Dispatch;
    hide Recount;
    var s2 := DispatchIf(s, First(s.presence, c.username), Joined(c.username), pace1).value;
    if First(s.viewers, c.ViewerKey()) {
      DispatchIfCounted(s, First(s.presence, c.username), Joined(c.username), pace1);
      RecountCurrent(s2, pace2);
    } else {
      GreetKeepsLog(s2, c, PaceOf(pace2, c));
      NothingLost();
    }
  }

  lemma ExitCurrent(s: State, c: Client, pace1: Pace, pace2: Pace)
    requires Counted(s) && Exit(s, c, pace1, pace2).Some?
    requires Last(s.viewers, c.ViewerKey()) || (Published(s) && !Last(s.presence, c.username))
    ensures var t := Exit(s, c, pace1, pace2).value;
            && Published(t)
            && (Current(t) <==> (Last(s.viewers, c.ViewerKey()) || Current(s))
                                && !LosesViewer(LastOfExit(s, c, pace1, pace2)))
  {
    hide LosesViewer;
    hide RoundOf;
    hide Dispatch;
    hide Recount;
    var s2 := DispatchIf(s, Last(s.presence, c.username), Left(c.username), pace1).value;
    if Last(s.viewers, c.ViewerKey()) {
      DispatchIfCounted(s, Last(s.presence, c.username), Left(c.username), pace1);
      RecountCurrent(s2, pace2);
    } else {
      NothingLost();
    }
  }

  lemma RegisterKeys(s: State, c: Client, m: Mail)
    requires Counted(s) && c !in s.clients
    ensures var r := Register(s, c, m);
            && r.counted == s.counted && r.published == s.published
            && (First(r.viewers, c.ViewerKey()) <==> OnlyOne(c, s.clients))
            && (!First(r.viewers, c.ViewerKey()) ==> r.viewers.Keys == s.viewers.Keys)
  {
    FirstOrSeen(ByViewer, s.clients, c);
    OnlyOneKey(c, s.clients);
  }

  /** A registration that brings no new key changes no keys. */
  lemma RegisterCurrent(s: State, c: Client, m: Mail)
    requires Good(s) && Published(s) && c !in s.welcomes && m.Wf() && !m.outClosed && m.log == s.history
    ensures var r := Register(s, c, m);
            && Counted(r) && (First(r.viewers, c.ViewerKey()) || (Published(r) && !First(r.presence, c.username)))
            && (First(r.viewers, c.ViewerKey()) <==> OnlyOne(c, s.clients))
            && (!First(r.viewers, c.ViewerKey()) ==> (Current(r) <==> Current(s)))
  {
    hide Register;
    hide First;
    hide Tally;
    hide Chronicle;
    hide Delivered;
    hide Unmet;
    RegisterCore(s, c, m);
    RegisterKeys(s, c, m);
  }

  lemma JoinCurrent(s: State, c: Client, backlogPace: seq<nat>, pace1: Pace, pace2: Pace)
    requires Good(s) && Published(s) && !s.stopped && c !in s.welcomes && At(s.mail, c) == NEW_MAIL
    requires JoinStep(s, c, backlogPace, pace1, pace2).Some?
    ensures var t, e := JoinStep(s, c, backlogPace, pace1, pace2).value, Join(c, backlogPace, pace1, pace2);
            Published(t) && (Current(t) <==> (Publishes(s, e) || Current(s)) && !LosesViewer(LastRound(s, e)))
  {
    hide LosesViewer;
    hide LastOfEnter;
    hide Enter;
    hide Good;
    hide Register;
    hide First;
    hide OnlyOne;
    BacklogSafe(NEW_MAIL, s.history, backlogPace);
    BacklogLog(NEW_MAIL, s.history, backlogPace);
    var (m, fits) := Backlog(NEW_MAIL, s.history, backlogPace);
    NothingLost();
    if fits {
      assert NEW_MAIL.log + s.history == s.history;
      RegisterCurrent(s, c, m);
      EnterCurrent(Register(s, c, m), c, pace1, pace2);
    }
  }

  lemma KeysAfter(s: State, c: Client)
    requires Counted(s) && c in s.clients
    ensures var r := Removed(s, {c});
            && r.viewers.Keys <= s.viewers.Keys
            && (!Last(r.viewers, c.ViewerKey()) ==> r.viewers.Keys == s.viewers.Keys)
            && (Last(r.viewers, c.ViewerKey()) <==> OnlyOne(c, s.clients - {c}))
  {
    OnlyOneKey(c, s.clients - {c});
    DropTally(ByViewer, s.clients, {c});
    if c.ViewerKey() == "" {
      assert forall k :: Holders(ByViewer, {c}, k) == {};
    } else {
      LastOrKept(ByViewer, s.clients, c);
    }
  }

  /** A removal that takes no last holder changes no keys. */
  lemma RemovedCurrent(s: State, c: Client)
    requires Good(s) && Published(s) && c in s.clients
    ensures var r := Removed(s, {c});
            && Counted(r) && (Last(r.viewers, c.ViewerKey()) || (Published(r) && !Last(r.presence, c.username)))
            && (Last(r.viewers, c.ViewerKey()) <==> OnlyOne(c, s.clients - {c}))
            && (!Last(r.viewers, c.ViewerKey()) ==> (Current(r) <==> Current(s)))
  {
    var r := Removed(s, {c});
    RemovedCore(s, {c});
    KeysAfter(s, c);
    assert Lockstep(r.viewers, r.presence);
  }

  lemma ClosedIsGone(s: State, c: Client)
    requires Good(s)
    ensures At(s.mail, c).closed ==> c !in s.clients
  {
  }

  lemma LeaveCurrent(s: State, c: Client, pace1: Pace, pace2: Pace)
    requires Good(s) && Published(s) && !s.stopped && (c in s.clients || At(s.mail, c).closed)
    requires LeaveStep(s, c, pace1, pace2).Some?
    ensures var t, e := LeaveStep(s, c, pace1, pace2).value, Leave(c, pace1, pace2);
            Published(t) && (Current(t) <==> (Publishes(s, e) || Current(s)) && !LosesViewer(LastRound(s, e)))
  {
    hide LosesViewer;
    hide LastOfExit;
    hide Exit;
    hide Good;
    hide Removed;
    hide Last;
    hide OnlyOne;
    NothingLost();
    ClosedIsGone(s, c);
    if !At(s.mail, c).closed {
      RemovedCurrent(s, c);
      ExitCurrent(Removed(s, {c}), c, pace1, pace2);
    }
  }

  lemma SendCurrent(s: State, m: Message, pace: Pace)
    requires Counted(s) && Published(s) && SendStep(s, m, pace).Some?
    ensures var t := SendStep(s, m, pace).value;
            Published(t) && (Current(t) <==> Current(s) && !LosesViewer(RoundOf(s, pace)))
  {
    hide LosesViewer;
    DispatchCurrent(s.(history := Appended(s.history, m)), m, pace);
  }

  lemma CountedKeys(s: State)
    requires Good(s)
    ensures s.viewers.Keys == Keys(ByViewer, s.clients)
  {
  }

  lemma StopPublishes(s: State)
    requires !s.stopped && Step(s, Stop).Some?
    ensures var t := Step(s, Stop).value; t.counted == s.counted && t.published == s.published
  {
    hide Drop;
  }

  lemma StopCurrent(s: State)
    requires Good(s) && Published(s) && !s.stopped
    ensures Step(s, Stop).Some?
    ensures var t := Step(s, Stop).value;
            Published(t) && (Current(t) <==> Current(s) && !LosesViewer(Round(s.clients, s.clients)))
  {
    hide Good;
    hide Step;
    hide LosesViewer;
    StopEmpties(s);
    StopPublishes(s);
    CountedKeys(s);
    KeysLost(s.clients, s.clients);
    assert s.clients - s.clients == {} && Keys(ByViewer, {}) == {};
  }

  lemma ReceiveCurrent(s: State, c: Client, k: nat)
    ensures var t := Step(s, Receive(c, k)).value; (Published(t) <==> Published(s)) && (Current(t) <==> Current(s))
  {
  }

  lemma StepCurrent(s: State, e: Event)
    requires Good(s) && Published(s) && Guard(s, e) && Step(s, e).Some?
    ensures var t := Step(s, e).value;
            Published(t) && (Current(t) <==> (Publishes(s, e) || Current(s)) && !LosesViewer(LastRound(s, e)))
  {
    hide LosesViewer;
    hide Kept;
    hide Published;
    hide Current;
    NothingLost();
    if e.Receive? {
      ReceiveCurrent(s, e.c, e.k);
    } else if !s.stopped {
      match e
      case Join(c, backlogPace, pace1, pace2) => JoinCurrent(s, c, backlogPace, pace1, pace2);
      case Leave(c, pace1, pace2) => LeaveCurrent(s, c, pace1, pace2);
      case Send(id, user, body, pace) => SendCurrent(s, Chat(id, user, body), pace);
      case Stop => StopCurrent(s);
      case _ =>
    }
  }

  /** One step: the cached count is right afterwards exactly when it was or the step publishes,
      and the last broadcast of the step, or its stop, removes no last holder of a viewer key. */
  lemma StepCount(s: State, e: Event)
    requires Good(s) && Published(s) && Guard(s, e)
    ensures Step(s, e).Some? && Published(Step(s, e).value)
    ensures Fresh(Step(s, e).value) <==> (Publishes(s, e) || Fresh(s)) && !LosesViewer(LastRound(s, e))
  {
    hide Step;
    hide LosesViewer;
    hide Good;
    hide Published;
    hide Fresh;
    hide Current;
    StepGood(s, e);
    StepCurrent(s, e);
    FreshIsCurrent(s);
    FreshIsCurrent(Step(s, e).value);
  }

  // ---------------------------------------------------------------- every lawful run

  /** Step `i` ends with the removal of a last holder. */
  ghost predicate LosesAt(es: seq<Event>, i: nat)
    requires i < |es|
  {
    Run(INIT, es[..i]).Some? && LosesViewer(LastRound(Run(INIT, es[..i]).value, es[i]))
  }

  ghost predicate PublishesAt(es: seq<Event>, i: nat)
    requires i < |es|
  {
    Run(INIT, es[..i]).Some? && Publishes(Run(INIT, es[..i]).value, es[i])
  }

  ghost predicate Republished(es: seq<Event>, i: nat)
    requires i < |es|
  {
    exists j: nat :: i < j < |es| && PublishesAt(es, j)
  }

  lemma OfFront(es: seq<Event>, i: nat)
    requires i + 1 < |es|
    ensures var front := es[..|es| - 1];
            LosesAt(front, i) == LosesAt(es, i) && PublishesAt(front, i) == PublishesAt(es, i)
  {
    assert es[..|es| - 1][..i] == es[..i];
  }

  lemma RepublishedFront(es: seq<Event>, i: nat)
    requires i + 1 < |es|
    ensures Republished(es, i) <==> Republished(es[..|es| - 1], i) || PublishesAt(es, |es| - 1)
  {
    hide PublishesAt;
    var front := es[..|es| - 1];
    forall j: nat | j < |front| ensures PublishesAt(front, j) == PublishesAt(es, j) { OfFront(es, j); }
    if Republished(front, i) {
      var j: nat :| i < j < |front| && PublishesAt(front, j);
      assert PublishesAt(es, j);
    }
    if j: nat :| i < j < |es| && PublishesAt(es, j) {
      assert j < |front| ==> PublishesAt(front, j);
    }
  }

  ghost predicate AllRepublished(es: seq<Event>) {
    forall i: nat :: i < |es| && LosesAt(es, i) ==> Republished(es, i)
  }

  lemma AllRepublishedSnoc(es: seq<Event>)
    requires es != []
    ensures AllRepublished(es)
            <==> (PublishesAt(es, |es| - 1) || AllRepublished(es[..|es| - 1])) && !LosesAt(es, |es| - 1)
  {
    hide LosesAt;
    hide PublishesAt;
    var n := |es| - 1;
    var front := es[..n];
    assert !Republished(es, n);
    forall i: nat | i < n
      ensures LosesAt(front, i) == LosesAt(es, i)
      ensures Republished(es, i) <==> Republished(front, i) || PublishesAt(es, n)
    {
      OfFront(es, i);
      RepublishedFront(es, i);
    }
  }

  lemma NoneLost()
    ensures AllRepublished([])
  {
  }

  lemma {:induction false} RunCurrent(es: seq<Event>)
    requires Lawful(es) && Run(INIT, es).Some?
    ensures Published(Run(INIT, es).value) && (Fresh(Run(INIT, es).value) <==> AllRepublished(es))
  {
    hide AllRepublished;
    if es == [] {
      assert AllRepublished([]) by { NoneLost(); }
    } else {
      hide Step;
      var n := |es| - 1;
      LawfulRunGood(es[..n]);
      RunCurrent(es[..n]);
      StepCount(Run(INIT, es[..n]).value, es[n]);
      AllRepublishedSnoc(es);
    }
  }

  lemma DistinctCounted(s: State)
    requires Good(s) && Published(s)
    ensures |Users(s.clients)| + |Cookies(s.clients)| == |s.viewers| <= s.published
  {
    KeysCount(s.clients);
    assert s.viewers.Keys == Keys(ByViewer, s.clients);
    assert |s.viewers| == |s.viewers.Keys|;
    SubsetSize(s.viewers.Keys, s.counted);
  }

  /** The cached count is never below the number of distinct viewers, which are the users and the guests'
      cookies among the registered, and equals it if and only if every step that ended with the removal
      of a viewer's last connection was followed by one that publishes. */
  lemma CountExact(es: seq<Event>)
    requires Lawful(es)
    ensures Run(INIT, es).Some?
    ensures var s := Run(INIT, es).value;
            var distinct := |Users(s.clients)| + |Cookies(s.clients)|;
            && |s.viewers| == distinct <= s.published
            && (s.published == distinct
                <==> forall i: nat :: i < |es| && LosesAt(es, i) ==>
                       exists j: nat :: i < j < |es| && PublishesAt(es, j))
  {
    hide Run;
    hide LosesAt;
    hide PublishesAt;
    hide Good;
    LawfulRunGood(es);
    RunCurrent(es);
    DistinctCounted(Run(INIT, es).value);
    assert forall i: nat :: i < |es| ==> (Republished(es, i) <==> exists j: nat :: i < j < |es| && PublishesAt(es, j));
  }

  /** Counting every connection without a key as a viewer of its own would give the same number if and
      only if there is none. */
  lemma KeylessUncounted(es: seq<Event>)
    requires Lawful(es)
    ensures Run(INIT, es).Some?
    ensures var s := Run(INIT, es).value;
            var keyless := set c | c in s.clients && c.username == "" && c.anonKey == "";
            |s.viewers| == |Users(s.clients)| + |Cookies(s.clients)| + |keyless|
            <==> forall c :: c in s.clients ==> c.username != "" || c.anonKey != ""
  {
    LawfulRunGood(es);
    RunCurrent(es);
    hide Run;
    hide Good;
    var s := Run(INIT, es).value;
    DistinctCounted(s);
    var keyless := set c | c in s.clients && c.username == "" && c.anonKey == "";
    if c :| c in s.clients && c.username == "" && c.anonKey == "" {
      assert c in keyless;
    } else {
      assert keyless == {};
    }
  }
}
