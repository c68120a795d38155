/** When exactly the room panics: no send on, and no second close of, a queue happens in any
    run, except for the two cases the code does not guard. */
module RoomSafety {
  import opened Collections
  import opened Clients
  import opened RoomSpec

  /** What every step keeps, whatever joins and leaves arrive. */
  ghost predicate Safe(s: State) {
    && (forall c :: c in s.mail ==> s.mail[c].Wf())
    && (forall c :: c in s.clients ==> c in s.mail && !s.mail[c].outClosed)
    && s.clients <= s.welcomes.Keys <= s.mail.Keys
    && (forall c :: c in s.welcomes ==> c in s.clients || s.mail[c].outClosed)
    && Lockstep(s.viewers, s.presence)
    && |s.history| <= HISTORY_SIZE
  }

  /** ServeWS makes a new client for each connection and sends it to the room once. */
  ghost predicate JoinsOnce(s: State, e: Event) {
    e.Join? ==> e.c !in s.welcomes
  }

  /** The steps that panic: a join whose leave was handled first, and a leave of a client whose
      queue was closed because its backlog did not fit. */
  predicate Panics(s: State, e: Event) {
    !s.stopped &&
    match e
    case Join(c, _, _, _) => At(s.mail, c).outClosed
    case Leave(c, _, _) => At(s.mail, c).outClosed && !At(s.mail, c).closed
    case _ => false
  }

  /** What one broadcast does to the queues: those tried and not missed stay open. */
  lemma SentQueues(mail: map<Client, Mail>, to: set<Client>, msg: Message, pace: Pace)
    requires to <= mail.Keys && forall c :: c in mail ==> mail[c].Wf()
    ensures var now := SentTo(mail, to, msg, pace);
            && now.Keys == mail.Keys
            && (forall c :: c in now ==> now[c].Wf())
            && (forall c :: c in now && c !in Missed(mail, to, pace) ==> now[c].outClosed == mail[c].outClosed)
            && (forall c :: c in Missed(mail, to, pace) ==> c in mail && now[c].outClosed)
            && (forall c :: c in mail && mail[c].outClosed ==> now[c].outClosed)
  {
  }

  lemma NoneClosed(s: State)
    requires Safe(s)
    ensures !SomeClosed(s.mail, s.clients)
  {
  }

  lemma DispatchFields(s: State, msg: Message, pace: Pace)
    requires !SomeClosed(s.mail, s.clients)
    ensures Dispatch(s, msg, pace).Some?
    ensures var t, gone := Dispatch(s, msg, pace).value, Missed(s.mail, s.clients, pace);
            && t.welcomes == s.welcomes && t.stopped == s.stopped && t.history == s.history
            && t.mail == SentTo(s.mail, s.clients, msg, pace) && t.clients == s.clients - gone
            && t.viewers == Drop(ByViewer, s.viewers, gone) && t.presence == Drop(ByUser, s.presence, gone)
  {
    hide Drop;
    hide SentTo;
    hide Missed;
    hide SomeClosed;
  }

  lemma DispatchSafe(s: State, msg: Message, pace: Pace)
    requires Safe(s)
    ensures Dispatch(s, msg, pace).Some? && Safe(Dispatch(s, msg, pace).value)
    ensures var t := Dispatch(s, msg, pace).value;
            t.welcomes == s.welcomes && t.stopped == s.stopped && t.mail.Keys == s.mail.Keys && t.history == s.history
  {
    hide Dispatch;
    hide Missed;
    hide SentTo;
    hide Drop;
    hide Lockstep;
    hide SomeClosed;
    NoneClosed(s);
    DispatchFields(s, msg, pace);
    SentQueues(s.mail, s.clients, msg, pace);
    LockstepDrop(s.viewers, s.presence, Missed(s.mail, s.clients, pace));
  }

  lemma {:induction false} BacklogSafe(m: Mail, history: seq<Message>, pace: seq<nat>)
    requires m.Wf()
    ensures var r := Backlog(m, history, pace).0; r.Wf() && r.outClosed == m.outClosed && r.closed == m.closed
    decreases |history|
  {
    if history != [] {
      var d := m.Drained(if pace == [] then 0 else pace[0]);
      if !d.Full() {
        BacklogSafe(d.(log := d.log + [history[0]]), history[1..], if pace == [] then [] else pace[1..]);
      }
    }
  }

  lemma RegisterSafe(s: State, c: Client, m: Mail)
    requires Safe(s) && m.Wf() && !m.outClosed
    ensures Safe(Register(s, c, m))
  {
    LockstepBump(s.viewers, s.presence, c);
  }

  /** A first join is announced exactly when it also brings a new viewer key, so the joiner that
      its own announcement evicts never reaches the unguarded greeting. */
  lemma AnnouncedIsCounted(s: State, c: Client, m: Mail)
    requires Lockstep(s.viewers, s.presence) && c.username != ""
    ensures var t := Register(s, c, m);
            c.username in t.presence && c.ViewerKey() in t.viewers && t.presence[c.username] == t.viewers[c.ViewerKey()]
  {
    LockstepBump(s.viewers, s.presence, c);
    ViewerKeyOfUser(c, c.username);
  }

  lemma DispatchIfSafe(s: State, cond: bool, msg: Message, pace: Pace)
    requires Safe(s)
    ensures var r := DispatchIf(s, cond, msg, pace);
            r.Some? && Safe(r.value) && r.value.welcomes == s.welcomes && (!cond ==> r.value == s)
  {
    if cond { DispatchSafe(s, msg, pace); }
  }

  lemma RecountSafe(s: State, pace: Pace)
    requires Safe(s)
    ensures var r := Recount(s, pace); r.Some? && Safe(r.value) && r.value.welcomes == s.welcomes
  {
    DispatchSafe(Publish(s), Viewers(|s.viewers|), pace);
  }

  lemma GreetSafe(s: State, c: Client, k: nat)
    requires Safe(s) && c in s.mail && !s.mail[c].outClosed && c in s.welcomes
    ensures var r := Greet(s, c, k); r.Some? && Safe(r.value) && r.value.welcomes.Keys == s.welcomes.Keys
  {
    hide Lockstep;
  }

  lemma EnterSafe(s: State, c: Client, pace1: Pace, pace2: Pace)
    requires Safe(s) && c in s.clients
    requires First(s.presence, c.username) ==> First(s.viewers, c.ViewerKey())
    ensures var r := Enter(s, c, pace1, pace2); r.Some? && Safe(r.value) && r.value.welcomes.Keys == s.welcomes.Keys
  {
    var announced := First(s.presence, c.username);
    DispatchIfSafe(s, announced, Joined(c.username), pace1);
    var s2 := DispatchIf(s, announced, Joined(c.username), pace1).value;
    if First(s.viewers, c.ViewerKey()) {
      RecountSafe(s2, pace2);
    } else {
      GreetSafe(s2, c, PaceOf(pace2, c));
    }
  }

  /** With the joiner's queue closed, every way on sends to it. */
  lemma EnterPanics(s: State, c: Client, pace1: Pace, pace2: Pace)
    requires c in s.clients && At(s.mail, c).outClosed
    ensures Enter(s, c, pace1, pace2).None?
  {
  }

  lemma RegisteredPanics(s: State, c: Client, m: Mail, pace1: Pace, pace2: Pace)
    requires m.outClosed
    ensures Enter(Register(s, c, m), c, pace1, pace2).None?
  {
    hide Enter;
    EnterPanics(Register(s, c, m), c, pace1, pace2);
  }

  lemma JoinOpen(s: State, c: Client, m: Mail, pace1: Pace, pace2: Pace)
    requires Safe(s) && m.Wf() && !m.outClosed
    ensures var r := Enter(Register(s, c, m), c, pace1, pace2);
            r.Some? && Safe(r.value) && r.value.welcomes.Keys == s.welcomes.Keys + {c}
  {
    RegisterSafe(s, c, m);
    if c.username != "" { AnnouncedIsCounted(s, c, m); }
    EnterSafe(Register(s, c, m), c, pace1, pace2);
  }

  lemma RejectSafe(s: State, c: Client, m: Mail)
    requires Safe(s) && m.Wf() && c !in s.clients
    ensures Safe(Reject(s, c, m)) && Reject(s, c, m).welcomes.Keys == s.welcomes.Keys + {c}
  {
  }

  lemma JoinExact(s: State, c: Client, backlogPace: seq<nat>, pace1: Pace, pace2: Pace)
    requires Safe(s) && c !in s.welcomes
    ensures var r := JoinStep(s, c, backlogPace, pace1, pace2);
            && (r.None? <==> At(s.mail, c).outClosed)
            && (r.Some? ==> Safe(r.value) && r.value.welcomes.Keys == s.welcomes.Keys + {c})
  {
    hide Enter;
    hide Register;
    hide Reject;
    var was := At(s.mail, c);
    BacklogSafe(was, s.history, backlogPace);
    var m := Backlog(was, s.history, backlogPace).0;
    if was.outClosed {
      if s.history == [] { RegisteredPanics(s, c, m, pace1, pace2); }
    } else {
      JoinOpen(s, c, m, pace1, pace2);
      RejectSafe(s, c, m);
    }
  }

  lemma RemovedSafe(s: State, gone: set<Client>)
    requires Safe(s) && forall c :: c in gone ==> At(s.mail, c).Wf()
    ensures Safe(Removed(s, gone))
  {
    LockstepDrop(s.viewers, s.presence, gone);
  }

  lemma ExitSafe(s: State, c: Client, pace1: Pace, pace2: Pace)
    requires Safe(s)
    ensures var r := Exit(s, c, pace1, pace2); r.Some? && Safe(r.value) && r.value.welcomes == s.welcomes
  {
    var announced := Last(s.presence, c.username);
    DispatchIfSafe(s, announced, Left(c.username), pace1);
    var s2 := DispatchIf(s, announced, Left(c.username), pace1).value;
    if Last(s.viewers, c.ViewerKey()) { RecountSafe(s2, pace2); }
  }

  lemma LeaveExact(s: State, c: Client, pace1: Pace, pace2: Pace)
    requires Safe(s)
    ensures var r := LeaveStep(s, c, pace1, pace2);
            && (r.None? <==> At(s.mail, c).outClosed && !At(s.mail, c).closed)
            && (r.Some? ==> Safe(r.value) && r.value.welcomes == s.welcomes)
  {
    if !At(s.mail, c).closed && !At(s.mail, c).outClosed {
      RemovedSafe(s, {c});
      ExitSafe(Removed(s, {c}), c, pace1, pace2);
    }
  }

  lemma StopTakesAll(s: State)
    requires Safe(s)
    ensures StillOpen(s) == s.clients && !SomeClosed(s.mail, s.clients)
  {
  }

  /** A step from a reachable state panics exactly in the two cases, and keeps the invariant
      otherwise. */
  lemma StepExact(s: State, e: Event)
    requires Safe(s) && JoinsOnce(s, e)
    ensures Step(s, e).None? <==> Panics(s, e)
    ensures Step(s, e).Some? ==>
              && Safe(Step(s, e).value)
              && Step(s, e).value.welcomes.Keys == s.welcomes.Keys + if e.Join? && !s.stopped then {e.c} else {}
  {
    if !s.stopped {
      match e
      case Join(c, backlogPace, pace1, pace2) => JoinExact(s, c, backlogPace, pace1, pace2);
      case Leave(c, pace1, pace2) => LeaveExact(s, c, pace1, pace2);
      case Send(id, user, body, pace) =>
        DispatchSafe(s.(history := Appended(s.history, Chat(id, user, body))), Chat(id, user, body), pace);
      case Stop =>
        StopTakesAll(s);
        RemovedSafe(s, s.clients);
      case _ =>
    }
  }

  /** Each client joins at most once along the run. */
  ghost predicate JoinOnceRun(es: seq<Event>) {
    forall i, j :: 0 <= i < j < |es| && es[i].Join? && es[j].Join? ==> es[i].c != es[j].c
  }

  lemma {:induction false} RunSafe(es: seq<Event>)
    requires JoinOnceRun(es) && Run(INIT, es).Some?
    ensures Safe(Run(INIT, es).value)
    ensures forall c :: c in Run(INIT, es).value.welcomes ==> exists i :: 0 <= i < |es| && es[i].Join? && es[i].c == c
  {
    if es != [] {
      var front, e := es[..|es| - 1], es[|es| - 1];
      RunSafe(front);
      var s := Run(INIT, front).value;
      assert JoinsOnce(s, e);
      StepExact(s, e);
      forall c | c in Step(s, e).value.welcomes
        ensures exists i :: 0 <= i < |es| && es[i].Join? && es[i].c == c
      {
        if c in s.welcomes {
          var i :| 0 <= i < |front| && front[i].Join? && front[i].c == c;
          assert es[i] == front[i];
        } else {
          assert es[|es| - 1].c == c;
        }
      }
    }
  }

  ghost predicate PanicsAt(es: seq<Event>, i: nat)
    requires i < |es|
  {
    Run(INIT, es[..i]).Some? && Panics(Run(INIT, es[..i]).value, es[i])
  }

  lemma FrontOnce(front: seq<Event>, e: Event)
    requires JoinOnceRun(front + [e])
    ensures JoinOnceRun(front)
  {
    assert forall i :: 0 <= i < |front| ==> front[i] == (front + [e])[i];
  }

  lemma RunSnoc(front: seq<Event>, e: Event)
    requires Run(INIT, front).Some?
    ensures Run(INIT, front + [e]) == Step(Run(INIT, front).value, e)
  {
    hide Step;
    assert (front + [e])[..|front|] == front;
  }

  /** The last step of a run, taken from a reachable state. */
  lemma StepFromRun(es: seq<Event>)
    requires es != [] && JoinOnceRun(es) && Run(INIT, es[..|es| - 1]).Some?
    ensures var s := Run(INIT, es[..|es| - 1]).value;
            Safe(s) && JoinsOnce(s, es[|es| - 1]) && (Run(INIT, es).None? <==> Panics(s, es[|es| - 1]))
  {
    var n := |es| - 1;
    RunSafe(es[..n]);
    var s := Run(INIT, es[..n]).value;
    StepExact(s, es[n]);
  }

  /** The last step of a run that does not panic. */
  lemma LastStep(front: seq<Event>, e: Event)
    requires JoinOnceRun(front + [e]) && Run(INIT, front + [e]).Some?
    ensures JoinOnceRun(front) && Run(INIT, front).Some?
    ensures var s := Run(INIT, front).value;
            Safe(s) && JoinsOnce(s, e) && Run(INIT, front + [e]) == Step(s, e)
  {
    var es := front + [e];
    assert es[..|es| - 1] == front && es[|es| - 1] == e;
    FrontOnce(front, e);
    assert Run(INIT, front).Some?;
    hide Run;
    hide Step;
    hide JoinOnceRun;
    StepFromRun(es);
    RunSnoc(front, e);
  }

  lemma {:induction false} PrefixRuns(es: seq<Event>, k: nat)
    requires k <= |es| && Run(INIT, es).Some?
    ensures Run(INIT, es[..k]).Some?
    decreases |es|
  {
    if k == |es| {
      assert es[..k] == es;
    } else {
      var front := es[..|es| - 1];
      assert front[..k] == es[..k];
      PrefixRuns(front, k);
    }
  }

  lemma PanicEnds(es: seq<Event>, i: nat)
    requires i < |es| && JoinOnceRun(es) && PanicsAt(es, i)
    ensures Run(INIT, es).None?
  {
    assert es[..i + 1][..i] == es[..i];
    StepFromRun(es[..i + 1]);
    if Run(INIT, es).Some? { PrefixRuns(es, i + 1); }
  }

  lemma {:induction false} FindPanic(es: seq<Event>) returns (i: nat)
    requires JoinOnceRun(es) && Run(INIT, es).None?
    ensures i < |es| && PanicsAt(es, i)
  {
    var n := |es| - 1;
    var front := es[..n];
    if Run(INIT, front).None? {
      i := FindPanic(front);
      assert front[..i] == es[..i] && front[i] == es[i];
    } else {
      i := n;
      StepFromRun(es);
    }
  }

  /** A run in which each client joins at most once panics if and only if, at some step, the
      guard finds one of the two unguarded cases. */
  lemma RunPanicsExactly(es: seq<Event>)
    requires JoinOnceRun(es)
    ensures Run(INIT, es).None? <==> exists i: nat :: i < |es| && PanicsAt(es, i)
  {
    if Run(INIT, es).None? {
      var i := FindPanic(es);
    } else if i: nat :| i < |es| && PanicsAt(es, i) {
      PanicEnds(es, i);
    }
  }
}
