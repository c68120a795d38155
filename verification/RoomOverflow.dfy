/** The two cases the room does not guard, followed to their end. The history holds 50 messages
    and a new queue only 32, so a joiner can be rejected; its own leave then closes a closed
    queue. And a leave handled before its join makes that join send on a closed queue. */
module RoomOverflow {
  import opened Collections
  import opened Clients
  import opened RoomSpec
  import opened RoomSafety
  import opened RoomDelivery

  // ---------------------------------------------------------------- who is rejected

  lemma {:induction false} BacklogFits(m: Mail, history: seq<Message>, pace: seq<nat>)
    requires m.Wf() && |m.log| - m.taken + |history| <= CLIENT_SEND_BUFFER
    ensures Backlog(m, history, pace).1
    decreases |history|
  {
    if history != [] {
      var d := m.Drained(if pace == [] then 0 else pace[0]);
      BacklogFits(d.(log := d.log + [history[0]]), history[1..], if pace == [] then [] else pace[1..]);
    }
  }

  lemma {:induction false} BacklogOverflows(m: Mail, history: seq<Message>)
    requires m.Wf() && |m.log| - m.taken + |history| > CLIENT_SEND_BUFFER
    ensures !Backlog(m, history, []).1
    decreases |history|
  {
    var d := m.Drained(0);
    assert d == m;
    if !d.Full() {
      BacklogOverflows(d.(log := d.log + [history[0]]), history[1..]);
    }
  }

  /** A new client is sure to be accepted, however slow its writer, exactly when the history
      is no longer than its queue. */
  lemma AcceptedAtAnyPace(history: seq<Message>)
    ensures (forall pace: seq<nat> :: Backlog(NEW_MAIL, history, pace).1) <==> |history| <= CLIENT_SEND_BUFFER
  {
    if |history| <= CLIENT_SEND_BUFFER {
      forall pace: seq<nat> ensures Backlog(NEW_MAIL, history, pace).1 {
        BacklogFits(NEW_MAIL, history, pace);
      }
    } else {
      BacklogOverflows(NEW_MAIL, history);
    }
  }

  // ---------------------------------------------------------------- what happens to others

  /** A client that is not registered is not touched by what is not addressed to it. */
  ghost predicate Untouched(s: State, t: State, c: Client) {
    && c !in s.clients && c !in t.clients
    && At(t.mail, c).outClosed == At(s.mail, c).outClosed && At(t.mail, c).closed == At(s.mail, c).closed
    && At(t.mail, c).log == At(s.mail, c).log
  }

  lemma DispatchIfUntouched(s: State, cond: bool, msg: Message, pace: Pace, c: Client)
    requires c !in s.clients && DispatchIf(s, cond, msg, pace).Some?
    ensures Untouched(s, DispatchIf(s, cond, msg, pace).value, c)
    ensures DispatchIf(s, cond, msg, pace).value.stopped == s.stopped
  {
  }

  lemma GreetUntouched(s: State, d: Client, k: nat, c: Client)
    requires c !in s.clients && c != d && Greet(s, d, k).Some?
    ensures Untouched(s, Greet(s, d, k).value, c)
  {
  }

  lemma EnterUntouched(s: State, d: Client, pace1: Pace, pace2: Pace, c: Client)
    requires c !in s.clients && c != d && Enter(s, d, pace1, pace2).Some?
    ensures Untouched(s, Enter(s, d, pace1, pace2).value, c)
  {
    var announced := First(s.presence, d.username);
    DispatchIfUntouched(s, announced, Joined(d.username), pace1, c);
    var s2 := DispatchIf(s, announced, Joined(d.username), pace1).value;
    if First(s.viewers, d.ViewerKey()) {
      DispatchIfUntouched(Publish(s2), true, Viewers(|s2.viewers|), pace2, c);
    } else {
      GreetUntouched(s2, d, PaceOf(pace2, d), c);
    }
  }

  lemma ExitUntouched(s: State, d: Client, pace1: Pace, pace2: Pace, c: Client)
    requires c !in s.clients && Exit(s, d, pace1, pace2).Some?
    ensures Untouched(s, Exit(s, d, pace1, pace2).value, c) && Exit(s, d, pace1, pace2).value.stopped == s.stopped
  {
    var announced := Last(s.presence, d.username);
    DispatchIfUntouched(s, announced, Left(d.username), pace1, c);
    var s2 := DispatchIf(s, announced, Left(d.username), pace1).value;
    if Last(s.viewers, d.ViewerKey()) {
      DispatchIfUntouched(Publish(s2), true, Viewers(|s2.viewers|), pace2, c);
    }
  }

  lemma StepUntouched(s: State, e: Event, c: Client)
    requires c !in s.clients && !(e.Join? && e.c == c) && !(e.Leave? && e.c == c) && Step(s, e).Some?
    ensures Untouched(s, Step(s, e).value, c)
  {
    if !s.stopped {
      match e
      case Join(d, backlogPace, pace1, pace2) =>
        var (m, fits) := Backlog(At(s.mail, d), s.history, backlogPace);
        if fits { EnterUntouched(Register(s, d, m), d, pace1, pace2, c); }
      case Leave(d, pace1, pace2) =>
        if !At(s.mail, d).closed { ExitUntouched(Removed(s, {d}), d, pace1, pace2, c); }
      case Send(id, user, body, pace) =>
        var m := Chat(id, user, body);
        DispatchIfUntouched(s.(history := Appended(s.history, m)), true, m, pace, c);
      case _ =>
    }
  }

  // ---------------------------------------------------------------- the rejected joiner

  ghost predicate Rejected(s: State, c: Client) {
    c in s.welcomes && c !in s.clients && At(s.mail, c).outClosed && !At(s.mail, c).closed
  }

  lemma {:induction false} RejectedStays(s: State, more: seq<Event>, c: Client)
    requires Safe(s) && Rejected(s, c)
    requires forall i, j :: 0 <= i < j < |more| && more[i].Join? && more[j].Join? ==> more[i].c != more[j].c
    requires forall e :: e in more && e.Join? ==> e.c !in s.welcomes
    requires Run(s, more).Some? && !Run(s, more).value.stopped
    ensures Safe(Run(s, more).value) && Rejected(Run(s, more).value, c)
    ensures Run(s, more).value.welcomes.Keys == s.welcomes.Keys + set e | e in more && e.Join? :: e.c
  {
    if more != [] {
      var front, e := more[..|more| - 1], more[|more| - 1];
      var t := Run(s, front).value;
      assert !t.stopped;
      assert forall d :: d in front ==> d in more;
      RejectedStays(s, front, c);
      assert e in more;
      assert more == front + [e];
      StepExact(t, e);
      StepUntouched(t, e, c);
    }
  }

  /** A client rejected at its join stays in that state whatever happens next, and a leave sent
      for it, at any later time before the room stops, closes a closed queue. */
  lemma LeaveOfRejectedPanics(s: State, more: seq<Event>, c: Client, pace1: Pace, pace2: Pace)
    requires Safe(s) && Rejected(s, c)
    requires forall i, j :: 0 <= i < j < |more| && more[i].Join? && more[j].Join? ==> more[i].c != more[j].c
    requires forall e :: e in more && e.Join? ==> e.c !in s.welcomes
    requires Run(s, more).Some? && !Run(s, more).value.stopped
    ensures Run(s, more + [Leave(c, pace1, pace2)]).None?
  {
    RejectedStays(s, more, c);
    assert (more + [Leave(c, pace1, pace2)])[..|more|] == more;
  }

  /** In any room whose history is longer than a queue, a new client whose writer has not run yet
      is rejected, and the leave that ServeWS sends when it finds its queue closed panics. */
  lemma RejectedJoinerCrashesRoom(s: State, c: Client, pace1: Pace, pace2: Pace)
    requires Safe(s) && !s.stopped && |s.history| > CLIENT_SEND_BUFFER
    requires c !in s.welcomes && At(s.mail, c) == NEW_MAIL
    ensures var r := Step(s, Join(c, [], pace1, pace2));
            && r.Some? && !r.value.stopped && Rejected(r.value, c) && Step(r.value, Leave(c, pace1, pace2)).None?
  {
    BacklogOverflows(NEW_MAIL, s.history);
    BacklogSafe(NEW_MAIL, s.history, []);
  }

  // ---------------------------------------------------------------- the early leave

  lemma EarlyLeaveCloses(s: State, c: Client, pace1: Pace, pace2: Pace)
    requires c !in s.clients && At(s.mail, c) == NEW_MAIL && LeaveStep(s, c, pace1, pace2).Some?
    ensures var t := LeaveStep(s, c, pace1, pace2).value;
            At(t.mail, c).outClosed && t.stopped == s.stopped
  {
    ExitUntouched(Removed(s, {c}), c, pace1, pace2, c);
  }

  /** A leave handled before its join does not panic itself, but closes the queue that the join
      will send on: from then on, the join panics. */
  lemma EarlyLeaveDoomsJoin(s: State, c: Client, pace1: Pace, pace2: Pace, join: Event)
    requires Safe(s) && !s.stopped && c !in s.welcomes && At(s.mail, c) == NEW_MAIL
    requires join.Join? && join.c == c
    ensures var r := Step(s, Leave(c, pace1, pace2));
            r.Some? && Safe(r.value) && !r.value.stopped && Step(r.value, join).None?
  {
    LeaveExact(s, c, pace1, pace2);
    EarlyLeaveCloses(s, c, pace1, pace2);
    StepExact(LeaveStep(s, c, pace1, pace2).value, join);
  }

  /** The counters are a recount, less one for a client that is not registered. */
  ghost predicate Short(s: State, c: Client) {
    && c !in s.clients
    && s.viewers == Drop(ByViewer, Tally(ByViewer, s.clients), {c})
    && s.presence == Drop(ByUser, Tally(ByUser, s.clients), {c})
  }

  lemma DropSwap(w: Counter, cs: set<Client>, gone: set<Client>, c: Client)
    requires gone <= cs && c !in cs
    ensures Drop(w, Drop(w, Tally(w, cs), {c}), gone) == Drop(w, Tally(w, cs - gone), {c})
  {
    DropUnion(w, Tally(w, cs), {c}, gone);
    DropUnion(w, Tally(w, cs), gone, {c});
    assert {c} + gone == gone + {c};
    DropTally(w, cs, gone);
  }

  lemma DispatchShort(s: State, msg: Message, pace: Pace, c: Client)
    requires Short(s, c) && Dispatch(s, msg, pace).Some?
    ensures Short(Dispatch(s, msg, pace).value, c)
  {
    hide Drop;
    hide Tally;
    var gone := Missed(s.mail, s.clients, pace);
    DropSwap(ByViewer, s.clients, gone, c);
    DropSwap(ByUser, s.clients, gone, c);
  }

  lemma ExitShort(s: State, c: Client, pace1: Pace, pace2: Pace)
    requires Short(s, c) && Exit(s, c, pace1, pace2).Some?
    ensures Short(Exit(s, c, pace1, pace2).value, c)
  {
    hide Drop;
    hide Tally;
    hide Dispatch;
    var announced := Last(s.presence, c.username);
    if announced { DispatchShort(s, Left(c.username), pace1, c); }
    var s2 := DispatchIf(s, announced, Left(c.username), pace1).value;
    if Last(s.viewers, c.ViewerKey()) { DispatchShort(Publish(s2), Viewers(|s2.viewers|), pace2, c); }
  }

  lemma EarlyDrop(w: Counter, cs: set<Client>, c: Client)
    requires c !in cs
    ensures cs - {c} == cs
    ensures Drop(w, Tally(w, cs), {c}) == Tally(w, cs) <==> Holders(w, cs, KeyOf(w, c)) == {}
  {
    hide Holders;
    hide Tally;
    var key := KeyOf(w, c);
    var was, now := Tally(w, cs), Drop(w, Tally(w, cs), {c});
    forall k ensures |Holders(w, {c}, k)| == if k != "" && KeyOf(w, c) == k then 1 else 0 {
      OneHolder(w, c, k);
    }
    TallyKeys(w, cs, key);
    if key in was {
      assert key !in now || now[key] == was[key] - 1;
    } else {
      assert now == was;
    }
  }

  /** Who has the viewer key of a user is that user. */
  lemma SameHolders(cs: set<Client>, u: string)
    requires u != ""
    ensures Holders(ByViewer, cs, "u:" + u) == Holders(ByUser, cs, u)
  {
    forall d | d in cs ensures d.ViewerKey() == "u:" + u <==> d.username == u { ViewerKeyOfUser(d, u); }
  }

  lemma ShortCounted(s: State, c: Client)
    requires Short(s, c)
    ensures Counted(s) <==> Holders(ByViewer, s.clients, c.ViewerKey()) == {}
  {
    EarlyDrop(ByViewer, s.clients, c);
    EarlyDrop(ByUser, s.clients, c);
    if c.username != "" { SameHolders(s.clients, c.username); }
  }

  lemma RemovedShort(s: State, c: Client)
    requires Counted(s) && c !in s.clients
    ensures Short(Removed(s, {c}), c)
  {
    assert s.clients - {c} == s.clients;
  }

  lemma EarlyLeaveShort(s: State, c: Client, pace1: Pace, pace2: Pace)
    requires Safe(s) && Counted(s) && c !in s.clients && At(s.mail, c) == NEW_MAIL
    ensures LeaveStep(s, c, pace1, pace2).Some? && Short(LeaveStep(s, c, pace1, pace2).value, c)
  {
    hide Exit;
    hide Removed;
    LeaveExact(s, c, pace1, pace2);
    RemovedShort(s, c);
    ExitShort(Removed(s, {c}), c, pace1, pace2);
  }

  lemma NoHolders(cs: set<Client>, c: Client)
    ensures Holders(ByViewer, cs, c.ViewerKey()) == {}
            <==> forall d :: d in cs && d.ViewerKey() != "" ==> d.ViewerKey() != c.ViewerKey()
  {
    if d :| d in cs && d.ViewerKey() != "" && d.ViewerKey() == c.ViewerKey() {
      assert d in Holders(ByViewer, cs, c.ViewerKey());
    }
  }

  /** It also takes one off the counters of whoever shares the viewer key: when the step is over
      they agree with a recount if and only if nobody registered shares it. */
  lemma EarlyLeaveMiscounts(s: State, c: Client, pace1: Pace, pace2: Pace)
    requires Safe(s) && Counted(s) && c !in s.clients && At(s.mail, c) == NEW_MAIL
    ensures LeaveStep(s, c, pace1, pace2).Some?
    ensures var t := LeaveStep(s, c, pace1, pace2).value;
            Counted(t) <==> forall d :: d in t.clients && d.ViewerKey() != "" ==> d.ViewerKey() != c.ViewerKey()
  {
    EarlyLeaveShort(s, c, pace1, pace2);
    var t := LeaveStep(s, c, pace1, pace2).value;
    ShortCounted(t, c);
    NoHolders(t.clients, c);
  }

  /** One of the broadcasts of a leave finds this queue full: "left", if the leaver has a name,
      or the new count. */
  predicate FullOnLeave(m: Mail, user: string, k1: nat, k2: nat) {
    if user == "" then m.Drained(k2).Full()
    else m.Drained(k1).Full() || Tried(m, Left(user), k1).Drained(k2).Full()
  }

  lemma DispatchOne(s: State, msg: Message, pace: Pace, d: Client)
    requires d in s.clients && d in s.mail && Dispatch(s, msg, pace).Some?
    ensures var t := Dispatch(s, msg, pace).value;
            && (d in t.clients <==> !s.mail[d].Drained(PaceOf(pace, d)).Full())
            && d in t.mail && t.mail[d] == Tried(s.mail[d], msg, PaceOf(pace, d))
  {
    hide Drop;
  }

  /** Who shares a user's name shares its viewer key; a client without a key shares none. */
  lemma NobodyShares(cs: set<Client>, c: Client)
    ensures c.username != "" ==> Holders(ByUser, cs, c.username) == Holders(ByViewer, cs, c.ViewerKey())
    ensures c.ViewerKey() == "" ==> Holders(ByViewer, cs, c.ViewerKey()) == {}
  {
    if c.username != "" { SameHolders(cs, c.username); }
  }

  /** What the leave of the last holder of a viewer key does to somebody else's queue. */
  lemma ExitEvicts(s: State, c: Client, pace1: Pace, pace2: Pace, d: Client)
    requires d in s.clients && d in s.mail && Exit(s, c, pace1, pace2).Some?
    requires Last(s.viewers, c.ViewerKey()) && (Last(s.presence, c.username) <==> c.username != "")
    ensures d in Exit(s, c, pace1, pace2).value.clients
            <==> !FullOnLeave(s.mail[d], c.username, PaceOf(pace1, d), PaceOf(pace2, d))
  {
    hide Drop;
    var s2 := DispatchIf(s, c.username != "", Left(c.username), pace1).value;
    if c.username != "" { DispatchOne(s, Left(c.username), pace1, d); }
    if d in s2.clients { DispatchOne(Publish(s2), Viewers(|s2.viewers|), pace2, d); }
  }

  lemma LessOne(w: Counter, cs: set<Client>, c: Client)
    requires c !in cs
    ensures var k := KeyOf(w, c);
            var left := Drop(w, Tally(w, cs), {c});
            && (|Holders(w, cs, k)| == 1 ==> (Last(left, k) <==> k != ""))
            && (|Holders(w, cs, k)| > 1 ==> !Last(left, k))
  {
    hide Holders;
    OneHolder(w, c, KeyOf(w, c));
    TallyKeys(w, cs, KeyOf(w, c));
  }

  /** How many share the key decides which broadcasts the leave makes. */
  lemma EarlyLeaveSeen(s: State, c: Client)
    requires Counted(s) && c !in s.clients
    ensures var r := Removed(s, {c});
            var sharers := Holders(ByViewer, s.clients, c.ViewerKey());
            && r.clients == s.clients
            && (|sharers| == 1 ==>
                  Last(r.viewers, c.ViewerKey()) && (Last(r.presence, c.username) <==> c.username != ""))
            && (|sharers| > 1 ==> !Last(r.viewers, c.ViewerKey()) && !Last(r.presence, c.username))
  {
    hide Drop;
    LessOne(ByViewer, s.clients, c);
    LessOne(ByUser, s.clients, c);
    NobodyShares(s.clients, c);
    assert s.clients - {c} == s.clients;
  }

  lemma LeaverShrinks(s: State, c: Client, pace1: Pace, pace2: Pace)
    requires Exit(s, c, pace1, pace2).Some?
    ensures Exit(s, c, pace1, pace2).value.clients <= s.clients
  {
    hide Drop;
    hide SentTo;
  }

  lemma OneShares(s: State, c: Client, pace1: Pace, pace2: Pace, d: Client)
    requires Safe(s) && Counted(s) && c !in s.clients && At(s.mail, c) == NEW_MAIL
    requires Holders(ByViewer, s.clients, c.ViewerKey()) == {d}
    requires LeaveStep(s, c, pace1, pace2).Some?
    ensures d in s.clients
    ensures d in LeaveStep(s, c, pace1, pace2).value.clients
            <==> !FullOnLeave(At(s.mail, d), c.username, PaceOf(pace1, d), PaceOf(pace2, d))
  {
    hide Exit;
    hide FullOnLeave;
    hide Tally;
    hide Drop;
    assert d in Holders(ByViewer, s.clients, c.ViewerKey());
    EarlyLeaveSeen(s, c);
    ExitEvicts(Removed(s, {c}), c, pace1, pace2, d);
  }

  lemma ManyShare(s: State, c: Client, pace1: Pace, pace2: Pace)
    requires Counted(s) && c !in s.clients && At(s.mail, c) == NEW_MAIL
    requires |Holders(ByViewer, s.clients, c.ViewerKey())| > 1
    ensures LeaveStep(s, c, pace1, pace2).Some? && LeaveStep(s, c, pace1, pace2).value.clients == s.clients
  {
    hide Last;
    hide Counted;
    hide Holders;
    EarlyLeaveSeen(s, c);
  }

  lemma NoneShare(s: State, c: Client, pace1: Pace, pace2: Pace)
    requires c !in s.clients && At(s.mail, c) == NEW_MAIL && LeaveStep(s, c, pace1, pace2).Some?
    ensures LeaveStep(s, c, pace1, pace2).value.clients <= s.clients
  {
    hide Exit;
    LeaverShrinks(Removed(s, {c}), c, pace1, pace2);
  }

  lemma FewerHolders(w: Counter, fewer: set<Client>, cs: set<Client>, k: string)
    requires fewer <= cs
    ensures Holders(w, fewer, k) == Holders(w, cs, k) * fewer
  {
  }

  lemma Several<T>(xs: set<T>)
    requires xs != {} && forall x :: xs != {x}
    ensures |xs| > 1
  {
    var x :| x in xs;
    SubsetSize({x}, xs);
  }

  /** The counters are right after the step: nobody shared the key before it, or one client did
      and the leave itself evicts it. */
  lemma EarlyLeaveRepaired(s: State, c: Client, pace1: Pace, pace2: Pace)
    requires Safe(s) && Counted(s) && c !in s.clients && At(s.mail, c) == NEW_MAIL
    ensures LeaveStep(s, c, pace1, pace2).Some?
    ensures var sharers := Holders(ByViewer, s.clients, c.ViewerKey());
            Counted(LeaveStep(s, c, pace1, pace2).value) <==>
              || sharers == {}
              || exists d :: d in s.clients && sharers == {d}
                             && FullOnLeave(At(s.mail, d), c.username, PaceOf(pace1, d), PaceOf(pace2, d))
  {
    hide LeaveStep;
    hide Safe;
    hide Counted;
    hide Short;
    hide FullOnLeave;
    hide Holders;
    var sharers := Holders(ByViewer, s.clients, c.ViewerKey());
    EarlyLeaveShort(s, c, pace1, pace2);
    var t := LeaveStep(s, c, pace1, pace2).value;
    ShortCounted(t, c);
    NoneShare(s, c, pace1, pace2);
    FewerHolders(ByViewer, t.clients, s.clients, c.ViewerKey());
    if d :| sharers == {d} {
      OneShares(s, c, pace1, pace2, d);
    } else if sharers != {} {
      Several(sharers);
      ManyShare(s, c, pace1, pace2);
      FewerHolders(ByViewer, s.clients, s.clients, c.ViewerKey());
      assert sharers * s.clients == sharers;
    }
  }
}
