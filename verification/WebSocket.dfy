/** The connection handlers around a room. A join and a leave of the same client travel on
    different buffered channels, and the room picks among those that are ready: which leaves
    break the discipline that RoomDelivery's theorems rest on, and what then happens. */
module WebSocket {
  import opened Collections
  import opened Clients
  import opened RoomSpec
  import opened RoomSafety
  import opened RoomDelivery
  import opened RoomMessages
  import opened RoomOverflow

  const CHANNEL_SIZE: nat := 4

  /** The two channels, every client that was put on `joins`, and what the room has taken. */
  datatype Net = Net(events: seq<Event>, joins: seq<Client>, leaves: seq<Client>, served: set<Client>)

  const QUIET := Net([], [], [], {})

  datatype Action =
    | Connect(c: Client)                                        // ServeWS: room.join <- c
    | Hangup(c: Client)                                         // the leave of ServeWS or readLoop
    | TakeJoin(backlogPace: seq<nat>, pace1: Pace, pace2: Pace)
    | TakeLeave(pace1: Pace, pace2: Pace)
    | TakeSend(c: Client, id: nat, body: string, pace: Pace)
    | TakeStop
    | Write(c: Client, k: nat)                                  // ServeWS receives from c.out

  function RoomOf(n: Net): Option<State> {
    Run(INIT, n.events)
  }

  predicate Taken(a: Action) {
    a.TakeJoin? || a.TakeLeave? || a.TakeSend? || a.TakeStop?
  }

  /** A panic ends the process, and a stopped room takes nothing more. */
  predicate Enabled(n: Net, a: Action) {
    && RoomOf(n).Some?
    && (Taken(a) ==> !RoomOf(n).value.stopped)
    && match a
       case Connect(c) => c !in n.served && |n.joins| < CHANNEL_SIZE && At(RoomOf(n).value.mail, c) == NEW_MAIL
       case Hangup(c) => c in n.served
       case TakeJoin(_, _, _) => n.joins != []
       case TakeLeave(_, _) => n.leaves != []
       case TakeSend(c, _, body, _) => c in n.served && c.username != "" && body != ""
       case TakeStop => true
       case Write(c, _) => c in n.served
  }

  function Next(n: Net, a: Action): Net
    requires Enabled(n, a)
  {
    match a
    case Connect(c) => n.(joins := n.joins + [c], served := n.served + {c})
    case Hangup(c) => if |n.leaves| < CHANNEL_SIZE then n.(leaves := n.leaves + [c]) else n
    case TakeJoin(backlogPace, pace1, pace2) =>
      n.(joins := n.joins[1..], events := n.events + [Join(n.joins[0], backlogPace, pace1, pace2)])
    case TakeLeave(pace1, pace2) =>
      n.(leaves := n.leaves[1..], events := n.events + [Leave(n.leaves[0], pace1, pace2)])
    case TakeSend(c, id, body, pace) => n.(events := n.events + [Send(id, c.username, body, pace)])
    case TakeStop => n.(events := n.events + [Stop])
    case Write(c, k) => n.(events := n.events + [Receive(c, k)])
  }

  /** The leave of a client whose join is still waiting, or which was rejected at its join. */
  ghost predicate Hazard(n: Net, a: Action)
    requires Enabled(n, a)
  {
    a.TakeLeave? && (n.leaves[0] in n.joins || Rejected(RoomOf(n).value, n.leaves[0]))
  }

  // ---------------------------------------------------------------- what every step keeps

  ghost predicate Distinct(cs: seq<Client>) {
    forall i, j :: 0 <= i < j < |cs| ==> cs[i] != cs[j]
  }

  /** Whatever leaves are taken: a client is put on `joins` once, and taken from it once. */
  ghost predicate Wired(n: Net) {
    && Distinct(n.joins) && JoinOnceRun(n.events)
    && (forall c :: c in n.joins ==> c in n.served)
    && (forall c :: c in n.leaves ==> c in n.served)
    && (forall e :: e in n.events && e.Join? ==> e.c in n.served && e.c !in n.joins)
    && |n.joins| <= CHANNEL_SIZE && |n.leaves| <= CHANNEL_SIZE
  }

  lemma ActWired(n: Net, a: Action)
    requires Wired(n) && Enabled(n, a)
    ensures Wired(Next(n, a))
  {
    hide Run;
    var t := Next(n, a);
    if a.TakeJoin? {
      assert n.joins[0] !in n.joins[1..];
      assert forall c :: c in n.joins[1..] ==> c in n.joins;
    }
  }

  /** As long as no hazardous leave was taken: the run is lawful, and the clients that wait on
      `joins` are those the room has not heard of. */
  ghost predicate Clean(n: Net) {
    && Wired(n) && Lawful(n.events) && RoomOf(n).Some? && Good(RoomOf(n).value)
    && var s := RoomOf(n).value;
       && (forall c :: c in n.joins ==> c !in s.welcomes && At(s.mail, c) == NEW_MAIL)
       && (forall c :: c in n.served ==> c in n.joins || c in s.welcomes)
       && (forall c :: c in s.welcomes ==> c in n.served)
  }

  /** A client that waits is not touched by a step about others. */
  lemma StaysNew(s: State, e: Event, c: Client)
    requires Safe(s) && JoinsOnce(s, e) && c !in s.welcomes && At(s.mail, c) == NEW_MAIL
    requires !(e.Join? && e.c == c) && !(e.Leave? && e.c == c) && Step(s, e).Some?
    ensures var t := Step(s, e).value; c !in t.welcomes && At(t.mail, c) == NEW_MAIL
  {
    hide Step;
    StepExact(s, e);
    StepUntouched(s, e, c);
  }

  /** The room accepts a step under the discipline, and waiting clients stay new. */
  lemma TakenClean(n: Net, s: State, e: Event, joins: seq<Client>)
    requires Clean(n) && RoomOf(n) == Some(s) && Guard(s, e)
    requires forall c :: c in joins ==> c in n.joins && !(e.Join? && e.c == c) && !(e.Leave? && e.c == c)
    requires forall c :: c in n.joins ==> c in joins || (e.Join? && e.c == c)
    requires e.Join? ==> e.c in n.served && !s.stopped
    ensures Lawful(n.events + [e]) && Run(INIT, n.events + [e]) == Step(s, e)
    ensures Step(s, e).Some? && Good(Step(s, e).value)
    ensures var t := Step(s, e).value;
            && (forall c :: c in joins ==> c !in t.welcomes && At(t.mail, c) == NEW_MAIL)
            && (forall c :: c in n.served ==> c in joins || c in t.welcomes)
            && (forall c :: c in t.welcomes ==> c in n.served)
  {
    hide Step;
    hide Run;
    hide Lawful;
    LawfulSnoc(n.events, e);
    StepGood(s, e);
    StepExact(s, e);
    forall c | c in joins
      ensures c !in Step(s, e).value.welcomes && At(Step(s, e).value.mail, c) == NEW_MAIL
    {
      StaysNew(s, e, c);
    }
  }

  /** Only a hazardous leave is against the discipline. */
  lemma LeaveGuard(n: Net, pace1: Pace, pace2: Pace)
    requires Clean(n) && Enabled(n, TakeLeave(pace1, pace2))
    ensures Guard(RoomOf(n).value, Leave(n.leaves[0], pace1, pace2)) <==> !Hazard(n, TakeLeave(pace1, pace2))
  {
    hide Run;
    hide Lawful;
    assert n.leaves[0] in n.leaves;
  }

  lemma TakeKeepsClean(n: Net, a: Action, e: Event, joins: seq<Client>)
    requires Clean(n) && Enabled(n, a) && !Hazard(n, a) && !a.Connect? && !a.Hangup?
    requires Next(n, a).events == n.events + [e] && Next(n, a).joins == joins && Next(n, a).served == n.served
    requires Guard(RoomOf(n).value, e)
    requires forall c :: c in joins ==> c in n.joins && !(e.Join? && e.c == c) && !(e.Leave? && e.c == c)
    requires forall c :: c in n.joins ==> c in joins || (e.Join? && e.c == c)
    requires e.Join? ==> e.c in n.served && !RoomOf(n).value.stopped
    ensures Clean(Next(n, a))
  {
    hide Next;
    hide Wired;
    hide Run;
    hide Lawful;
    hide Step;
    hide Good;
    ActWired(n, a);
    TakenClean(n, RoomOf(n).value, e, joins);
  }

  lemma ActClean(n: Net, a: Action)
    requires Clean(n) && Enabled(n, a) && !Hazard(n, a)
    ensures Clean(Next(n, a))
  {
    hide Run;
    hide Lawful;
    hide Step;
    ActWired(n, a);
    match a
    case Connect(c) =>
    case Hangup(c) =>
    case TakeJoin(backlogPace, pace1, pace2) =>
      assert n.joins[0] !in n.joins[1..] && n.joins == [n.joins[0]] + n.joins[1..];
      TakeKeepsClean(n, a, Join(n.joins[0], backlogPace, pace1, pace2), n.joins[1..]);
    case TakeLeave(pace1, pace2) =>
      LeaveGuard(n, pace1, pace2);
      TakeKeepsClean(n, a, Leave(n.leaves[0], pace1, pace2), n.joins);
    case TakeSend(c, id, body, pace) => TakeKeepsClean(n, a, Send(id, c.username, body, pace), n.joins);
    case TakeStop => TakeKeepsClean(n, a, Stop, n.joins);
    case Write(c, k) => TakeKeepsClean(n, a, Receive(c, k), n.joins);
  }

  // ---------------------------------------------------------------- every behaviour

  ghost predicate Behaviour(ns: seq<Net>, acts: seq<Action>) {
    && |ns| == |acts| + 1 && ns[0] == QUIET
    && forall i :: 0 <= i < |acts| ==> Enabled(ns[i], acts[i]) && ns[i + 1] == Next(ns[i], acts[i])
  }

  ghost predicate HazardAt(ns: seq<Net>, acts: seq<Action>, i: nat)
    requires Behaviour(ns, acts) && i < |acts|
  {
    Hazard(ns[i], acts[i])
  }

  lemma QuietClean()
    ensures Clean(QUIET)
  {
    LawfulRunGood([]);
  }

  lemma {:induction false} StaysWired(ns: seq<Net>, acts: seq<Action>, i: nat)
    requires Behaviour(ns, acts) && i < |ns|
    ensures Wired(ns[i])
  {
    hide Next;
    hide Enabled;
    hide Wired;
    if i == 0 {
      QuietClean();
      assert Wired(QUIET) by { assert Clean(QUIET); }
    } else {
      StaysWired(ns, acts, i - 1);
      ActWired(ns[i - 1], acts[i - 1]);
    }
  }

  lemma {:induction false} CleanUntilHazard(ns: seq<Net>, acts: seq<Action>, n: nat)
    requires Behaviour(ns, acts) && n <= |acts| && forall i: nat :: i < n ==> !HazardAt(ns, acts, i)
    ensures Clean(ns[n])
  {
    hide Next;
    hide Enabled;
    hide Clean;
    hide Hazard;
    if n == 0 {
      QuietClean();
    } else {
      CleanUntilHazard(ns, acts, n - 1);
      assert !HazardAt(ns, acts, n - 1);
      ActClean(ns[n - 1], acts[n - 1]);
    }
  }

  /** What was against the discipline stays in the room's past. */
  lemma LawfulBefore(n: Net, a: Action)
    requires Enabled(n, a) && Lawful(Next(n, a).events)
    ensures Lawful(n.events)
  {
    hide Lawful;
    hide Run;
    var t := Next(n, a);
    if t.events != n.events {
      var e := t.events[|n.events|];
      assert t.events == n.events + [e];
      LawfulSnoc(n.events, e);
    }
  }

  lemma HazardUnlawful(n: Net, a: Action)
    requires Clean(n) && Enabled(n, a) && Hazard(n, a)
    ensures !Lawful(Next(n, a).events)
  {
    hide Run;
    hide Lawful;
    var leave := Leave(n.leaves[0], a.pace1, a.pace2);
    LawfulSnoc(n.events, leave);
    LeaveGuard(n, a.pace1, a.pace2);
  }

  lemma {:induction false} UnlawfulStays(ns: seq<Net>, acts: seq<Action>, i: nat, j: nat)
    requires Behaviour(ns, acts) && i <= j < |ns| && Lawful(ns[j].events)
    ensures Lawful(ns[i].events)
    decreases j - i
  {
    hide Lawful;
    if i < j {
      LawfulBefore(ns[j - 1], acts[j - 1]);
      UnlawfulStays(ns, acts, i, j - 1);
    }
  }

  lemma FirstHazard(ns: seq<Net>, acts: seq<Action>, i: nat) returns (f: nat)
    requires Behaviour(ns, acts) && i < |acts| && HazardAt(ns, acts, i)
    ensures f < |acts| && HazardAt(ns, acts, f) && forall j: nat :: j < f ==> !HazardAt(ns, acts, j)
  {
    hide Hazard;
    hide Enabled;
    hide Next;
    f := 0;
    while !HazardAt(ns, acts, f)
      invariant f <= i && forall j: nat :: j < f ==> !HazardAt(ns, acts, j)
      decreases i - f
    {
      f := f + 1;
    }
  }

  /** However the handlers and the room interleave, the room's run is one that the delivery,
      presence and refinement theorems cover if and only if no leave was taken while its join
      was waiting or after its client was rejected. */
  lemma DisciplineExact(ns: seq<Net>, acts: seq<Action>)
    requires Behaviour(ns, acts)
    ensures Lawful(ns[|acts|].events) <==> forall i: nat :: i < |acts| ==> !HazardAt(ns, acts, i)
  {
    hide Lawful;
    hide Enabled;
    hide Next;
    if i: nat :| i < |acts| && HazardAt(ns, acts, i) {
      var f := FirstHazard(ns, acts, i);
      CleanUntilHazard(ns, acts, f);
      HazardUnlawful(ns[f], acts[f]);
      if Lawful(ns[|acts|].events) {
        UnlawfulStays(ns, acts, f + 1, |acts|);
      }
    } else {
      CleanUntilHazard(ns, acts, |acts|);
    }
  }

  /** So the process can crash only after such a leave. */
  lemma CrashNeedsHazard(ns: seq<Net>, acts: seq<Action>)
    requires Behaviour(ns, acts) && RoomOf(ns[|acts|]).None?
    ensures exists i: nat :: i < |acts| && HazardAt(ns, acts, i)
  {
    DisciplineExact(ns, acts);
    if Lawful(ns[|acts|].events) { LawfulRunGood(ns[|acts|].events); }
  }

  // ---------------------------------------------------------------- what a hazard leads to

  /** A waiting client has not joined. */
  lemma StaysOut(n: Net)
    requires Wired(n) && RoomOf(n).Some?
    ensures forall c :: c in n.joins ==> c !in RoomOf(n).value.welcomes
  {
    hide Run;
    RunSafe(n.events);
  }

  /** Whatever happened before, a step crashes the process exactly when it closes a closed queue
      or is the join of a client whose queue is closed already. */
  lemma CrashExact(n: Net, a: Action)
    requires Wired(n) && Enabled(n, a)
    ensures RoomOf(Next(n, a)).None? <==>
              var mail := RoomOf(n).value.mail;
              || (a.TakeLeave? && At(mail, n.leaves[0]).outClosed && !At(mail, n.leaves[0]).closed)
              || (a.TakeJoin? && At(mail, n.joins[0]).outClosed)
  {
    hide Run;
    hide Step;
    RunSafe(n.events);
    var s, t := RoomOf(n).value, Next(n, a);
    if t.events != n.events {
      var e := t.events[|n.events|];
      LawfulSnoc(n.events, e);
      StaysOut(n);
      StepExact(s, e);
    }
  }

  /** The step takes the join of `c`. */
  predicate Admits(n: Net, a: Action, c: Client) {
    a.TakeJoin? && n.joins != [] && n.joins[0] == c
  }

  ghost predicate Doomed(n: Net, c: Client) {
    && c in n.joins && RoomOf(n).Some?
    && var s := RoomOf(n).value; c !in s.clients && At(s.mail, c).outClosed && At(s.mail, c).closed
  }

  lemma WiredSafe(n: Net)
    requires Wired(n) && RoomOf(n).Some?
    ensures Safe(RoomOf(n).value)
  {
    RunSafe(n.events);
  }

  /** Taking the leave of a waiting client closes the queue that its join will send on. */
  lemma EarlyLeaveDooms(n: Net, pace1: Pace, pace2: Pace)
    requires Wired(n) && Enabled(n, TakeLeave(pace1, pace2)) && n.leaves[0] in n.joins
    ensures var t := Next(n, TakeLeave(pace1, pace2));
            RoomOf(t).Some? ==> Doomed(t, n.leaves[0])
  {
    hide Run;
    hide Exit;
    hide Wired;
    var s, c := RoomOf(n).value, n.leaves[0];
    LawfulSnoc(n.events, Leave(c, pace1, pace2));
    StaysOut(n);
    assert Safe(s) by { WiredSafe(n); }
    if !At(s.mail, c).closed && !At(s.mail, c).outClosed {
      LeaveExact(s, c, pace1, pace2);
      ExitUntouched(Removed(s, {c}), c, pace1, pace2, c);
    }
  }

  /** It stays doomed until its join is taken. */
  lemma ActDoomed(n: Net, a: Action, c: Client)
    requires Wired(n) && Enabled(n, a) && Doomed(n, c)
    ensures RoomOf(Next(n, a)).None? || Doomed(Next(n, a), c) || Admits(n, a, c)
  {
    hide Run;
    hide Exit;
    hide Enter;
    var s, t := RoomOf(n).value, Next(n, a);
    if t.events != n.events && !Admits(n, a, c) {
      var e := t.events[|n.events|];
      LawfulSnoc(n.events, e);
      if !(e.Leave? && e.c == c) && Step(s, e).Some? {
        StepUntouched(s, e, c);
      }
      if a.TakeJoin? { assert c in n.joins[1..]; }
    }
  }

  lemma StillRuns(n: Net, a: Action)
    requires Enabled(n, a)
    ensures RoomOf(n).Some?
  {
  }

  lemma {:induction false} DoomedUntilJoin(ns: seq<Net>, acts: seq<Action>, i: nat, j: nat, c: Client)
    requires Behaviour(ns, acts) && i <= j < |acts| && Doomed(ns[i], c)
    requires forall k :: i <= k < j ==> !Admits(ns[k], acts[k], c)
    ensures Doomed(ns[j], c)
    decreases j - i
  {
    hide Next;
    hide Enabled;
    hide Wired;
    hide Doomed;
    hide Admits;
    hide RoomOf;
    if i < j {
      DoomedUntilJoin(ns, acts, i, j - 1, c);
      StaysWired(ns, acts, j - 1);
      ActDoomed(ns[j - 1], acts[j - 1], c);
      StillRuns(ns[j], acts[j]);
    }
  }

  /** Once the leave of a waiting client was taken, the process crashes when its join is, however
      much happens in between. */
  lemma EarlyLeaveCrashesAtJoin(ns: seq<Net>, acts: seq<Action>, i: nat, j: nat)
    requires Behaviour(ns, acts) && i < j < |acts|
    requires acts[i].TakeLeave? && ns[i].leaves[0] in ns[i].joins
    requires Admits(ns[j], acts[j], ns[i].leaves[0])
    ensures RoomOf(ns[j + 1]).None?
  {
    hide Next;
    hide Run;
    var c := ns[i].leaves[0];
    StaysWired(ns, acts, i);
    EarlyLeaveDooms(ns[i], acts[i].pace1, acts[i].pace2);
    StillRuns(ns[i + 1], acts[i + 1]);
    var k := i + 1;
    while !Admits(ns[k], acts[k], c)
      invariant i < k <= j && forall m :: i < m < k ==> !Admits(ns[m], acts[m], c)
      decreases j - k
    {
      k := k + 1;
    }
    DoomedUntilJoin(ns, acts, i + 1, k, c);
    StaysWired(ns, acts, k);
    CrashExact(ns[k], acts[k]);
    assert k == j by {
      if k < j { StillRuns(ns[k + 1], acts[k + 1]); }
    }
  }

  // ---------------------------------------------------------------- every crash

  /** The clients that were put on `joins` and no longer wait there have joined. */
  ghost predicate Accounted(n: Net) {
    RoomOf(n).Some? ==> forall c :: c in n.served ==> c in n.joins || c in RoomOf(n).value.welcomes
  }

  lemma ActAccounted(n: Net, a: Action)
    requires Wired(n) && Accounted(n) && Enabled(n, a)
    ensures Accounted(Next(n, a))
  {
    hide Run;
    hide Step;
    var s, t := RoomOf(n).value, Next(n, a);
    if t.events != n.events {
      var e := t.events[|n.events|];
      LawfulSnoc(n.events, e);
      WiredSafe(n);
      StaysOut(n);
      StepExact(s, e);
      if a.TakeJoin? { assert n.joins == [n.joins[0]] + n.joins[1..]; }
    }
  }

  lemma NobodyServed()
    ensures Accounted(QUIET)
  {
  }

  lemma {:induction false} StaysAccounted(ns: seq<Net>, acts: seq<Action>, i: nat)
    requires Behaviour(ns, acts) && i < |ns|
    ensures Accounted(ns[i])
  {
    hide Next;
    hide Enabled;
    hide Accounted;
    if i == 0 {
      QuietClean();
      assert Accounted(QUIET) by { NobodyServed(); }
    } else {
      StaysWired(ns, acts, i - 1);
      StaysAccounted(ns, acts, i - 1);
      ActAccounted(ns[i - 1], acts[i - 1]);
    }
  }

  ghost predicate LeavesEarly(n: Net, a: Action, c: Client) {
    a.TakeLeave? && n.leaves != [] && n.leaves[0] == c && c in n.joins
  }

  /** Before step `j`, the room took the leave of `c` while the join of `c` was waiting. */
  ghost predicate LeftWhileWaiting(ns: seq<Net>, acts: seq<Action>, j: nat, c: Client)
    requires Behaviour(ns, acts) && j <= |acts|
  {
    exists i: nat :: i < j && LeavesEarly(ns[i], acts[i], c)
  }

  /** A step closes the queue of a waiting client only by taking its leave. */
  lemma WaitingStaysOpen(n: Net, a: Action, c: Client)
    requires Wired(n) && Enabled(n, a) && c in Next(n, a).joins && !LeavesEarly(n, a, c)
    requires c in n.joins ==> !At(RoomOf(n).value.mail, c).outClosed
    requires RoomOf(Next(n, a)).Some?
    ensures !At(RoomOf(Next(n, a)).value.mail, c).outClosed
  {
    hide Run;
    hide Step;
    var s, t := RoomOf(n).value, Next(n, a);
    if t.events != n.events {
      var e := t.events[|n.events|];
      LawfulSnoc(n.events, e);
      StaysOut(n);
      WiredSafe(n);
      StepUntouched(s, e, c);
    }
  }

  lemma {:induction false} ClosedWhileWaiting(ns: seq<Net>, acts: seq<Action>, j: nat, c: Client)
    requires Behaviour(ns, acts) && j <= |acts| && c in ns[j].joins && RoomOf(ns[j]).Some?
    requires At(RoomOf(ns[j]).value.mail, c).outClosed
    ensures LeftWhileWaiting(ns, acts, j, c)
  {
    hide RoomOf;
    hide Enabled;
    hide Next;
    if j > 0 {
      StaysWired(ns, acts, j - 1);
      StillRuns(ns[j - 1], acts[j - 1]);
      if LeavesEarly(ns[j - 1], acts[j - 1], c) {
        assert LeftWhileWaiting(ns, acts, j, c);
      } else if c in ns[j - 1].joins && At(RoomOf(ns[j - 1]).value.mail, c).outClosed {
        ClosedWhileWaiting(ns, acts, j - 1, c);
        var i: nat :| i < j - 1 && LeavesEarly(ns[i], acts[i], c);
      } else {
        WaitingStaysOpen(ns[j - 1], acts[j - 1], c);
      }
    }
  }

  /** A queue that is closed under a client not marked closed is a rejected client's. */
  lemma HalfClosedIsRejected(n: Net, c: Client)
    requires Wired(n) && Accounted(n) && RoomOf(n).Some? && c in n.served
    ensures var s := RoomOf(n).value; Rejected(s, c) <==> At(s.mail, c).outClosed && !At(s.mail, c).closed
  {
    hide Run;
    RunKept(n.events);
    StaysOut(n);
  }

  lemma CrashCases(ns: seq<Net>, acts: seq<Action>, j: nat)
    requires Behaviour(ns, acts) && j < |acts| && Wired(ns[j]) && Accounted(ns[j])
    ensures acts[j].TakeLeave? ==>
              var n := ns[j];
              Rejected(RoomOf(n).value, n.leaves[0])
              <==> At(RoomOf(n).value.mail, n.leaves[0]).outClosed && !At(RoomOf(n).value.mail, n.leaves[0]).closed
    ensures acts[j].TakeJoin? ==>
              var c := ns[j].joins[0];
              LeftWhileWaiting(ns, acts, j, c) <==> At(RoomOf(ns[j]).value.mail, c).outClosed
  {
    hide Run;
    hide Next;
    if acts[j].TakeLeave? {
      assert ns[j].leaves[0] in ns[j].leaves;
      HalfClosedIsRejected(ns[j], ns[j].leaves[0]);
    } else if acts[j].TakeJoin? {
      var c := ns[j].joins[0];
      if At(RoomOf(ns[j]).value.mail, c).outClosed { ClosedWhileWaiting(ns, acts, j, c); }
      if i: nat :| i < j && LeavesEarly(ns[i], acts[i], c) {
        EarlyLeaveCrashesAtJoin(ns, acts, i, j);
        CrashExact(ns[j], acts[j]);
      }
    }
  }

  /** The process has crashed exactly when the last step took the leave of a client that was
      rejected, or the join of a client whose leave was taken while it waited. */
  lemma CrashedExactly(ns: seq<Net>, acts: seq<Action>)
    requires Behaviour(ns, acts) && acts != []
    ensures var last := |acts| - 1;
            var n, a := ns[last], acts[last];
            RoomOf(ns[last + 1]).None? <==>
              || (a.TakeLeave? && n.leaves != [] && RoomOf(n).Some? && Rejected(RoomOf(n).value, n.leaves[0]))
              || (a.TakeJoin? && n.joins != [] && LeftWhileWaiting(ns, acts, last, n.joins[0]))
  {
    var last := |acts| - 1;
    var n, a := ns[last], acts[last];
    StaysWired(ns, acts, last);
    StaysAccounted(ns, acts, last);
    CrashExact(n, a);
    CrashCases(ns, acts, last);
  }

  // ---------------------------------------------------------------- who said what

  /** What was posted, by whom: each message bears the name of the client that sent it, and its text. */
  function Sent(acts: seq<Action>): seq<Message> {
    if acts == [] then []
    else
      var a := acts[|acts| - 1];
      Sent(acts[..|acts| - 1]) + if a.TakeSend? then [Chat(a.id, a.c.username, a.body)] else []
  }

  lemma PostedNext(n: Net, a: Action)
    requires Enabled(n, a) && (RoomOf(n).value.stopped <==> Stop in n.events)
    ensures Posted(Next(n, a).events)
         == Posted(n.events) + if a.TakeSend? then [Chat(a.id, a.c.username, a.body)] else []
  {
    hide Run;
    var t := Next(n, a);
    if t.events != n.events { assert t.events[..|t.events| - 1] == n.events; }
  }

  /** The room's messages are the handlers' posts, in the order in which the room took them. */
  lemma {:induction false} PostedIsSent(ns: seq<Net>, acts: seq<Action>, j: nat)
    requires Behaviour(ns, acts) && j <= |acts|
    ensures Posted(ns[j].events) == Sent(acts[..j])
  {
    if j > 0 {
      PostedIsSent(ns, acts, j - 1);
      StaysWired(ns, acts, j - 1);
      RunPosts(ns[j - 1].events);
      PostedNext(ns[j - 1], acts[j - 1]);
      assert acts[..j][..j - 1] == acts[..j - 1];
    }
  }
}
