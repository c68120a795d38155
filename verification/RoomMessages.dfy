/** Delivery in terms of the run itself: what was posted, and when each client joined. */
module RoomMessages {
  import opened Collections
  import opened Clients
  import opened RoomSpec
  import opened RoomSafety
  import opened RoomDelivery

  /** The messages of the Send events taken before the room was stopped, in order. */
  function Posted(es: seq<Event>): seq<Message> {
    if es == [] then []
    else
      var front, e := es[..|es| - 1], es[|es| - 1];
      Posted(front) + if e.Send? && Stop !in front then [Chat(e.id, e.user, e.body)] else []
  }

  // ---------------------------------------------------------------- what a step adds

  /** Nothing but announcements and counts was broadcast, and no join was moved. */
  ghost predicate Adds(s: State, t: State) {
    && s.broadcasts <= t.broadcasts && Chats(t.broadcasts) == Chats(s.broadcasts)
    && t.history == s.history && t.stopped == s.stopped
    && forall c :: c in s.welcomes ==> c in t.welcomes && t.welcomes[c].start == s.welcomes[c].start
  }

  lemma DispatchIfAdds(s: State, cond: bool, msg: Message, pace: Pace)
    requires !msg.Chat? && DispatchIf(s, cond, msg, pace).Some?
    ensures Adds(s, DispatchIf(s, cond, msg, pace).value)
  {
    hide Drop;
    hide SentTo;
    hide Missed;
    ChatsSnoc(s.broadcasts, msg);
  }

  lemma AlwaysDispatch(s: State, pace: Pace)
    ensures Recount(s, pace) == DispatchIf(Publish(s), true, Viewers(|s.viewers|), pace)
  {
  }

  lemma RecountAdds(s: State, pace: Pace)
    requires Recount(s, pace).Some?
    ensures Adds(s, Recount(s, pace).value)
  {
    hide DispatchIf;
    hide Recount;
    AlwaysDispatch(s, pace);
    DispatchIfAdds(Publish(s), true, Viewers(|s.viewers|), pace);
  }

  lemma EnterAdds(s: State, c: Client, pace1: Pace, pace2: Pace)
    requires c in s.welcomes && Enter(s, c, pace1, pace2).Some?
    ensures Adds(s, Enter(s, c, pace1, pace2).value)
  {
    hide DispatchIf;
    hide Recount;
    hide First;
    var announced := First(s.presence, c.username);
    DispatchIfAdds(s, announced, Joined(c.username), pace1);
    var s2 := DispatchIf(s, announced, Joined(c.username), pace1).value;
    if First(s.viewers, c.ViewerKey()) { RecountAdds(s2, pace2); }
  }

  lemma ExitAdds(s: State, c: Client, pace1: Pace, pace2: Pace)
    requires Exit(s, c, pace1, pace2).Some?
    ensures Adds(s, Exit(s, c, pace1, pace2).value)
  {
    hide DispatchIf;
    hide Recount;
    var announced := Last(s.presence, c.username);
    DispatchIfAdds(s, announced, Left(c.username), pace1);
    var s2 := DispatchIf(s, announced, Left(c.username), pace1).value;
    if Last(s.viewers, c.ViewerKey()) { RecountAdds(s2, pace2); }
  }

  lemma JoinAdds(s: State, c: Client, backlogPace: seq<nat>, pace1: Pace, pace2: Pace)
    requires c !in s.welcomes && JoinStep(s, c, backlogPace, pace1, pace2).Some?
    ensures var t := JoinStep(s, c, backlogPace, pace1, pace2).value;
            Adds(s, t) && c in t.welcomes && t.welcomes[c].start == |s.broadcasts|
  {
    hide Enter;
    var (m, fits) := Backlog(At(s.mail, c), s.history, backlogPace);
    if fits { EnterAdds(Register(s, c, m), c, pace1, pace2); }
  }

  lemma LeaveAdds(s: State, c: Client, pace1: Pace, pace2: Pace)
    requires LeaveStep(s, c, pace1, pace2).Some?
    ensures Adds(s, LeaveStep(s, c, pace1, pace2).value)
  {
    hide Exit;
    if !At(s.mail, c).closed { ExitAdds(Removed(s, {c}), c, pace1, pace2); }
  }

  /** What any step broadcasts, and where it leaves the joins. */
  ghost predicate Follows(s: State, e: Event, t: State) {
    && s.broadcasts <= t.broadcasts
    && Chats(t.broadcasts) == Chats(s.broadcasts) + (if e.Send? && !s.stopped then [Chat(e.id, e.user, e.body)] else [])
    && t.stopped == (s.stopped || e.Stop?)
    && t.history == (if e.Send? && !s.stopped then Appended(s.history, Chat(e.id, e.user, e.body)) else s.history)
    && (forall c :: c in s.welcomes ==> c in t.welcomes && t.welcomes[c].start == s.welcomes[c].start)
    && (e.Join? && !s.stopped ==> e.c in t.welcomes && t.welcomes[e.c].start == |s.broadcasts|)
  }

  lemma SendFollows(s: State, e: Event)
    requires e.Send? && !s.stopped && Step(s, e).Some?
    ensures Follows(s, e, Step(s, e).value)
  {
    hide Drop;
    hide SentTo;
    hide Missed;
    ChatsSnoc(s.broadcasts, Chat(e.id, e.user, e.body));
  }

  lemma OtherFollows(s: State, e: Event)
    requires (s.stopped || e.Stop? || e.Receive?) && Step(s, e).Some?
    ensures Follows(s, e, Step(s, e).value)
  {
    hide Drop;
  }

  lemma StepFollows(s: State, e: Event)
    requires JoinsOnce(s, e) && Step(s, e).Some?
    ensures Follows(s, e, Step(s, e).value)
  {
    hide JoinStep;
    hide LeaveStep;
    hide SendStep;
    hide StopStep;
    if s.stopped || e.Stop? || e.Receive? {
      OtherFollows(s, e);
    } else {
      match e
      case Join(c, backlogPace, pace1, pace2) => JoinAdds(s, c, backlogPace, pace1, pace2);
      case Leave(c, pace1, pace2) => LeaveAdds(s, c, pace1, pace2);
      case _ => SendFollows(s, e);
    }
  }

  // ---------------------------------------------------------------- along a run

  lemma {:induction false} RunPosts(es: seq<Event>)
    requires JoinOnceRun(es) && Run(INIT, es).Some?
    ensures Chats(Run(INIT, es).value.broadcasts) == Posted(es)
    ensures Run(INIT, es).value.stopped <==> Stop in es
  {
    if es != [] {
      var front, e := es[..|es| - 1], es[|es| - 1];
      RunPosts(front);
      StepFromRun(es);
      hide Step;
      StepFollows(Run(INIT, front).value, e);
      assert es == front + [e];
    }
  }

  /** Client `c` is known to the room through event `i`. */
  ghost predicate JoinedAt(es: seq<Event>, i: nat, c: Client)
    requires i < |es|
  {
    es[i].Join? && es[i].c == c
  }

  lemma StartKept(s: State, e: Event, t: State, c: Client)
    requires Follows(s, e, t) && c in s.welcomes && s.welcomes[c].start <= |s.broadcasts|
    ensures c in t.welcomes && t.welcomes[c].start == s.welcomes[c].start <= |t.broadcasts|
    ensures t.broadcasts[..t.welcomes[c].start] == s.broadcasts[..t.welcomes[c].start]
  {
  }

  lemma StartSet(s: State, e: Event, t: State)
    requires Follows(s, e, t) && e.Join? && !s.stopped
    ensures e.c in t.welcomes && t.welcomes[e.c].start <= |t.broadcasts|
    ensures t.broadcasts[..t.welcomes[e.c].start] == s.broadcasts
  {
  }

  /** A step makes a client known only as its join. */
  lemma KnownByJoin(s: State, e: Event, c: Client)
    requires Safe(s) && JoinsOnce(s, e) && Step(s, e).Some? && c in Step(s, e).value.welcomes
    ensures if e.Join? && e.c == c then !s.stopped else c in s.welcomes
  {
    hide Step;
    StepExact(s, e);
  }

  lemma JoinIsLast(es: seq<Event>, i: nat, c: Client)
    requires JoinOnceRun(es) && i < |es| && JoinedAt(es, i, c)
    ensures var n := |es| - 1;
            && JoinOnceRun(es[..n]) && (JoinedAt(es, n, c) <==> i == n)
            && (i < n ==> es[..n][..i] == es[..i] && JoinedAt(es[..n], i, c))
  {
  }

  /** The recorded start of a client's delivery is the place of its join in the run. */
  lemma {:induction false} JoinPlace(es: seq<Event>, i: nat, c: Client)
    requires JoinOnceRun(es) && Run(INIT, es).Some? && c in Run(INIT, es).value.welcomes
    requires i < |es| && JoinedAt(es, i, c)
    ensures var s := Run(INIT, es).value;
            s.welcomes[c].start <= |s.broadcasts| && Chats(s.broadcasts[..s.welcomes[c].start]) == Posted(es[..i])
    decreases |es|
  {
    var n := |es| - 1;
    var front, e := es[..n], es[n];
    var s, t := Run(INIT, front).value, Run(INIT, es).value;
    StepFromRun(es);
    JoinIsLast(es, i, c);
    assert Run(INIT, es) == Step(s, e);
    hide JoinOnceRun;
    hide Step;
    hide Run;
    hide Safe;
    hide Follows;
    hide Chats;
    hide Posted;
    StepFollows(s, e);
    KnownByJoin(s, e, c);
    if i == n {
      RunPosts(front);
      StartSet(s, e, t);
    } else {
      JoinPlace(front, i, c);
      StartKept(s, e, t, c);
    }
  }

  /** Gap-free delivery: the chat messages queued to a registered client are exactly the messages
      posted in the run, in order, from 50 before its join until now; for a client that was evicted,
      has left or was rejected they are a prefix of that, even when other leaves came early. */
  lemma GapFree(es: seq<Event>, i: nat, c: Client)
    requires JoinOnceRun(es) && Run(INIT, es).Some? && c in Run(INIT, es).value.welcomes
    requires i < |es| && JoinedAt(es, i, c)
    ensures var s := Run(INIT, es).value;
            var before := |Posted(es[..i])|;
            var first := if before <= HISTORY_SIZE then 0 else before - HISTORY_SIZE;
            && first <= |Posted(es)|
            && Chats(At(s.mail, c).log) <= Posted(es)[first..]
            && (c in s.clients ==> Chats(At(s.mail, c).log) == Posted(es)[first..])
  {
    RunKept(es);
    RunPosts(es);
    JoinPlace(es, i, c);
    hide Run;
    var s := Run(INIT, es).value;
    assert Faithful(s, c);
    DueChats(s, c);
    ChatsPrefix(At(s.mail, c).log, Due(s, c));
  }

  /** Everybody the room knows came by a join of the run. */
  lemma EverybodyJoined(es: seq<Event>, c: Client) returns (i: nat)
    requires JoinOnceRun(es) && Run(INIT, es).Some? && c in Run(INIT, es).value.welcomes
    ensures i < |es| && JoinedAt(es, i, c)
  {
    RunSafe(es);
    var j :| 0 <= j < |es| && es[j].Join? && es[j].c == c;
    i := j;
  }
}
