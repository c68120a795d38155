/** The two ways to panic, told by the run alone: a join after the client's own leave, and a leave
    after the client's backlog overflowed. */
module RoomPanics {
  import opened Collections
  import opened Clients
  import opened RoomSpec
  import opened RoomSafety
  import opened RoomDelivery
  import opened RoomMessages
  import opened RoomOverflow

  // ---------------------------------------------------------------- who goes is marked closed

  /** A client that is no longer registered is marked closed. */
  ghost predicate GoneClosed(s: State, t: State, c: Client) {
    c in s.clients && c !in t.clients ==> At(t.mail, c).outClosed && At(t.mail, c).closed
  }

  /** Clients that are not registered keep their marks, and nobody is registered anew. */
  ghost predicate Shrinks(s: State, t: State, c: Client) {
    && t.clients <= s.clients && GoneClosed(s, t, c)
    && (c !in s.clients ==>
          At(t.mail, c).outClosed == At(s.mail, c).outClosed && At(t.mail, c).closed == At(s.mail, c).closed)
  }

  lemma DispatchIfShrinks(s: State, cond: bool, msg: Message, pace: Pace, c: Client)
    requires DispatchIf(s, cond, msg, pace).Some?
    ensures Shrinks(s, DispatchIf(s, cond, msg, pace).value, c)
  {
    hide Drop;
  }

  lemma RecountShrinks(s: State, pace: Pace, c: Client)
    requires Recount(s, pace).Some?
    ensures Shrinks(s, Recount(s, pace).value, c)
  {
    hide DispatchIf;
    hide Recount;
    AlwaysDispatch(s, pace);
    DispatchIfShrinks(Publish(s), true, Viewers(|s.viewers|), pace, c);
  }

  lemma GreetShrinks(s: State, d: Client, k: nat, c: Client)
    requires Greet(s, d, k).Some?
    ensures Shrinks(s, Greet(s, d, k).value, c)
  {
  }

  lemma EnterShrinks(s: State, d: Client, pace1: Pace, pace2: Pace, c: Client)
    requires Enter(s, d, pace1, pace2).Some?
    ensures Shrinks(s, Enter(s, d, pace1, pace2).value, c)
  {
    hide DispatchIf;
    hide Recount;
    hide Greet;
    hide First;
    var announced := First(s.presence, d.username);
    DispatchIfShrinks(s, announced, Joined(d.username), pace1, c);
    var s2 := DispatchIf(s, announced, Joined(d.username), pace1).value;
    if First(s.viewers, d.ViewerKey()) {
      RecountShrinks(s2, pace2, c);
    } else {
      GreetShrinks(s2, d, PaceOf(pace2, d), c);
    }
  }

  lemma ExitShrinks(s: State, d: Client, pace1: Pace, pace2: Pace, c: Client)
    requires Exit(s, d, pace1, pace2).Some?
    ensures Shrinks(s, Exit(s, d, pace1, pace2).value, c)
  {
    hide DispatchIf;
    hide Recount;
    hide Last;
    var announced := Last(s.presence, d.username);
    DispatchIfShrinks(s, announced, Left(d.username), pace1, c);
    var s2 := DispatchIf(s, announced, Left(d.username), pace1).value;
    if Last(s.viewers, d.ViewerKey()) { RecountShrinks(s2, pace2, c); }
  }

  // ---------------------------------------------------------------- one step

  /** The queue is closed, and the client not marked so. */
  predicate HalfClosed(s: State, c: Client) {
    At(s.mail, c).outClosed && !At(s.mail, c).closed
  }

  /** A join either registers the client, marks it closed, or leaves it half closed if its backlog does
      not fit. */
  lemma JoinMarks(s: State, c: Client, backlogPace: seq<nat>, pace1: Pace, pace2: Pace)
    requires Safe(s) && c !in s.welcomes && At(s.mail, c) == NEW_MAIL
    requires JoinStep(s, c, backlogPace, pace1, pace2).Some? && Safe(JoinStep(s, c, backlogPace, pace1, pace2).value)
    ensures HalfClosed(JoinStep(s, c, backlogPace, pace1, pace2).value, c)
            <==> !Backlog(NEW_MAIL, s.history, backlogPace).1
  {
    hide Enter;
    BacklogSafe(NEW_MAIL, s.history, backlogPace);
    var (m, fits) := Backlog(NEW_MAIL, s.history, backlogPace);
    if fits { EnterShrinks(Register(s, c, m), c, pace1, pace2, c); }
  }

  /** A step about others, or a leave of its own, makes nobody half closed who is known, and heals none. */
  lemma MarksStay(s: State, e: Event, c: Client)
    requires Safe(s) && JoinsOnce(s, e) && Step(s, e).Some? && Safe(Step(s, e).value)
    requires !(e.Join? && e.c == c) && (c in s.welcomes || !(e.Leave? && e.c == c))
    ensures HalfClosed(Step(s, e).value, c) <==> HalfClosed(s, c)
    ensures c !in s.welcomes ==> At(Step(s, e).value.mail, c).outClosed == At(s.mail, c).outClosed
  {
    if c !in s.clients && !(e.Leave? && e.c == c) {
      StepUntouched(s, e, c);
    } else if !s.stopped {
      match e
      case Join(d, backlogPace, pace1, pace2) =>
        hide Enter;
        var (m, fits) := Backlog(At(s.mail, d), s.history, backlogPace);
        if fits { EnterShrinks(Register(s, d, m), d, pace1, pace2, c); }
      case Leave(d, pace1, pace2) =>
        hide Exit;
        if !At(s.mail, d).closed { ExitShrinks(Removed(s, {d}), d, pace1, pace2, c); }
      case Send(id, user, body, pace) =>
        hide Dispatch;
        var m := Chat(id, user, body);
        DispatchIfShrinks(s.(history := Appended(s.history, m)), true, m, pace, c);
      case _ =>
    }
  }

  // ---------------------------------------------------------------- the run

  /** Event `i` is a leave of `c` that the room takes. */
  ghost predicate LeavesAt(es: seq<Event>, i: nat, c: Client)
    requires i < |es|
  {
    es[i].Leave? && es[i].c == c && Stop !in es[..i]
  }

  ghost predicate HasLeft(es: seq<Event>, c: Client) {
    exists i: nat :: i < |es| && LeavesAt(es, i, c)
  }

  lemma HasLeftStep(es: seq<Event>, c: Client)
    requires es != []
    ensures var n := |es| - 1; HasLeft(es, c) <==> HasLeft(es[..n], c) || LeavesAt(es, n, c)
  {
    var n := |es| - 1;
    if i: nat :| i < n && LeavesAt(es[..n], i, c) {
      assert es[..n][..i] == es[..i];
      assert LeavesAt(es, i, c);
    }
    if i: nat :| i < |es| && LeavesAt(es, i, c) && i < n {
      assert es[..n][..i] == es[..i];
      assert LeavesAt(es[..n], i, c);
    }
  }

  /** The backlog that is due at the join, the last 50 messages posted before it, is more than the queue
      and the writer take. */
  ghost predicate Overflowed(es: seq<Event>, i: nat)
    requires i < |es|
  {
    es[i].Join? && !Backlog(NEW_MAIL, Tail(Posted(es[..i]), 50), es[i].backlogPace).1
  }

  lemma LeaveCloses(s: State, c: Client, pace1: Pace, pace2: Pace)
    requires Safe(s) && c !in s.clients && LeaveStep(s, c, pace1, pace2).Some?
    ensures At(LeaveStep(s, c, pace1, pace2).value.mail, c).outClosed
  {
    hide Exit;
    if !At(s.mail, c).closed { ExitShrinks(Removed(s, {c}), c, pace1, pace2, c); }
  }

  /** One step of a run from a reachable state. */
  lemma RunStep(es: seq<Event>)
    requires es != [] && JoinOnceRun(es) && Run(INIT, es).Some?
    ensures var n := |es| - 1;
            && JoinOnceRun(es[..n]) && Run(INIT, es[..n]).Some?
            && var s := Run(INIT, es[..n]).value;
               && Run(INIT, es) == Step(s, es[n]) && Safe(s) && Kept(s) && JoinsOnce(s, es[n])
               && Safe(Step(s, es[n]).value) && (s.stopped <==> Stop in es[..n])
               && s.history == Tail(Posted(es[..n]), 50)
  {
    StepFromRun(es);
    RunKept(es[..|es| - 1]);
    RunPosts(es[..|es| - 1]);
    RunSafe(es);
  }

  lemma StoppedIdles(s: State, e: Event)
    requires s.stopped && !e.Receive?
    ensures Step(s, e) == Some(s)
  {
  }

  lemma LeaveTaken(s: State, e: Event)
    requires Safe(s) && !s.stopped && e.Leave? && e.c !in s.clients && Step(s, e).Some?
    ensures At(Step(s, e).value.mail, e.c).outClosed
  {
    hide LeaveStep;
    LeaveCloses(s, e.c, e.pace1, e.pace2);
  }

  /** A client that has not joined has a closed queue exactly when its leave came first. */
  lemma {:induction false} UnmetMarks(es: seq<Event>, c: Client)
    requires JoinOnceRun(es) && Run(INIT, es).Some? && c !in Run(INIT, es).value.welcomes
    ensures At(Run(INIT, es).value.mail, c).outClosed <==> HasLeft(es, c)
  {
    if es != [] {
      var n := |es| - 1;
      RunStep(es);
      HasLeftStep(es, c);
      var s, e := Run(INIT, es[..n]).value, es[n];
      hide Run;
      hide HasLeft;
      hide Step;
      hide Kept;
      StepExact(s, e);
      UnmetMarks(es[..n], c);
      if s.stopped && !e.Receive? {
        StoppedIdles(s, e);
      } else if e.Leave? && e.c == c {
        LeaveTaken(s, e);
      } else {
        MarksStay(s, e, c);
      }
    }
  }

  lemma JoinTaken(s: State, e: Event)
    requires Kept(s) && Safe(s) && !s.stopped && e.Join? && e.c !in s.welcomes
    requires Step(s, e).Some? && Safe(Step(s, e).value)
    ensures HalfClosed(Step(s, e).value, e.c) <==> !Backlog(NEW_MAIL, s.history, e.backlogPace).1
  {
    JoinExact(s, e.c, e.backlogPace, e.pace1, e.pace2);
    JoinFindsNew(s, e.c);
    hide JoinStep;
    JoinMarks(s, e.c, e.backlogPace, e.pace1, e.pace2);
  }

  lemma NotYetKnown(s: State, e: Event)
    requires JoinsOnce(s, e) && e.Join?
    ensures e.c !in s.welcomes
  {
  }

  lemma OverflowedStep(es: seq<Event>, i: nat, c: Client)
    requires i < |es| && JoinedAt(es, i, c)
    ensures var n := |es| - 1;
            if i == n then
              && es[n].Join? && es[n].c == c
              && (Overflowed(es, i) <==> !Backlog(NEW_MAIL, Tail(Posted(es[..n]), 50), es[n].backlogPace).1)
            else Overflowed(es, i) == Overflowed(es[..n], i)
  {
    hide Backlog;
    hide Posted;
    if i < |es| - 1 { assert es[..|es| - 1][..i] == es[..i]; }
  }

  lemma NotItsJoin(es: seq<Event>, n: nat, c: Client)
    requires n < |es| && !JoinedAt(es, n, c)
    ensures !(es[n].Join? && es[n].c == c)
  {
  }

  /** A known client is half closed exactly when its backlog overflowed at its join. */
  lemma {:induction false} KnownMarks(es: seq<Event>, i: nat, c: Client)
    requires JoinOnceRun(es) && Run(INIT, es).Some? && c in Run(INIT, es).value.welcomes
    requires i < |es| && JoinedAt(es, i, c)
    ensures HalfClosed(Run(INIT, es).value, c) <==> Overflowed(es, i)
    decreases |es|
  {
    hide *;
    var n := |es| - 1;
    RunStep(es);
    JoinIsLast(es, i, c);
    OverflowedStep(es, i, c);
    var s, e := Run(INIT, es[..n]).value, es[n];
    KnownByJoin(s, e, c);
    if i == n {
      NotYetKnown(s, e);
      JoinTaken(s, e);
    } else {
      NotItsJoin(es, n, c);
      KnownMarks(es[..n], i, c);
      MarksStay(s, e, c);
    }
  }

  lemma KnownNext(s: State, e: Event, c: Client)
    requires Safe(s) && JoinsOnce(s, e) && !s.stopped && Step(s, e).Some?
    requires c in s.welcomes || (e.Join? && e.c == c)
    ensures c in Step(s, e).value.welcomes
  {
    hide Step;
    StepExact(s, e);
  }

  /** Every join taken makes its client known. */
  lemma {:induction false} JoinsKnown(es: seq<Event>, i: nat, c: Client)
    requires JoinOnceRun(es) && Run(INIT, es).Some? && Stop !in es && i < |es| && JoinedAt(es, i, c)
    ensures c in Run(INIT, es).value.welcomes
    decreases |es|
  {
    var n := |es| - 1;
    assert es == es[..n] + [es[n]];
    RunStep(es);
    JoinIsLast(es, i, c);
    hide Run;
    hide Step;
    hide Safe;
    hide Kept;
    hide JoinOnceRun;
    if i < n { JoinsKnown(es[..n], i, c); }
    KnownNext(Run(INIT, es[..n]).value, es[n], c);
  }

  lemma LeaveCause(es: seq<Event>, c: Client)
    requires JoinOnceRun(es) && Run(INIT, es).Some? && Kept(Run(INIT, es).value) && Stop !in es
    ensures HalfClosed(Run(INIT, es).value, c)
            <==> exists i: nat :: i < |es| && JoinedAt(es, i, c) && Overflowed(es, i)
  {
    var s := Run(INIT, es).value;
    hide Run;
    if c in s.welcomes {
      var i := EverybodyJoined(es, c);
      KnownMarks(es, i, c);
      if j: nat :| j < |es| && JoinedAt(es, j, c) && Overflowed(es, j) { KnownMarks(es, j, c); }
    } else {
      if j: nat :| j < |es| && JoinedAt(es, j, c) && Overflowed(es, j) { JoinsKnown(es, j, c); }
    }
  }

  ghost predicate Cause(es: seq<Event>, e: Event) {
    && Stop !in es
    && (|| (e.Join? && HasLeft(es, e.c))
        || (e.Leave? && exists i: nat :: i < |es| && JoinedAt(es, i, e.c) && Overflowed(es, i)))
  }

  lemma PanicCause(es: seq<Event>, e: Event)
    requires JoinOnceRun(es) && Run(INIT, es).Some? && JoinsOnce(Run(INIT, es).value, e)
    ensures Panics(Run(INIT, es).value, e) <==> Cause(es, e)
  {
    RunKept(es);
    RunPosts(es);
    hide Run;
    hide HasLeft;
    hide Overflowed;
    hide JoinOnceRun;
    if Stop !in es {
      if e.Join? {
        UnmetMarks(es, e.c);
      } else if e.Leave? {
        LeaveCause(es, e.c);
      }
    }
  }

  /** A run in which nobody joins twice panics at its last event if and only if the room was not stopped
      and that event is a join whose client's leave was taken before, or a leave whose client's backlog
      overflowed at its join. */
  lemma PanicsByCause(es: seq<Event>)
    requires es != [] && JoinOnceRun(es) && Run(INIT, es[..|es| - 1]).Some?
    ensures Run(INIT, es).None? <==> Cause(es[..|es| - 1], es[|es| - 1])
  {
    StepFromRun(es);
    hide Run;
    hide Panics;
    hide Cause;
    PanicCause(es[..|es| - 1], es[|es| - 1]);
  }
}
