/** Runs of the whole chat, from the first connection on, in which what the code does not guard
    against happens to well-behaved clients. */
module Scenarios {
  import opened Collections
  import opened Clients
  import opened RoomSpec
  import opened RoomSafety
  import opened RoomDelivery
  import opened RoomMessages
  import opened RoomOverflow
  import opened WebSocket

  lemma Continued(ns: seq<Net>, acts: seq<Action>, a: Action)
    requires Behaviour(ns, acts) && Enabled(ns[|acts|], a)
    ensures Behaviour(ns + [Next(ns[|acts|], a)], acts + [a])
  {
    hide Enabled;
    hide Next;
  }

  /** The net with one client waiting. */
  function OneWaits(d: Client): Net {
    Net([], [d], [], {d})
  }

  lemma ConnectFirst(d: Client)
    ensures Enabled(QUIET, Connect(d)) && Next(QUIET, Connect(d)) == OneWaits(d)
    ensures Clean(OneWaits(d)) && RoomOf(OneWaits(d)) == Some(INIT)
  {
    assert Run(INIT, []) == Some(INIT);
    QuietClean();
    assert RoomOf(QUIET) == Some(INIT);
    hide Run;
    hide Clean;
    assert Enabled(QUIET, Connect(d));
    ActClean(QUIET, Connect(d));
  }

  lemma CleanRuns(n: Net)
    requires Clean(n)
    ensures RoomOf(n).Some?
  {
  }

  // ---------------------------------------------------------------- the early leave

  lemma TwoSteps(c: Client, leave: Event, join: Event)
    requires leave == Leave(c, map[], map[]) && join == Join(c, [], map[], map[])
    ensures Run(INIT, []) == Some(INIT)
    ensures Run(INIT, [leave]).Some? && !Run(INIT, [leave]).value.stopped
    ensures Run(INIT, [leave] + [join]).None?
  {
    hide Step;
    assert Run(INIT, []) == Some(INIT);
    assert Safe(INIT) && At(INIT.mail, c) == NEW_MAIL;
    EarlyLeaveDoomsJoin(INIT, c, map[], map[], join);
    LawfulSnoc([], leave);
    LawfulSnoc([leave], join);
    assert [] + [leave] == [leave];
  }

  /** It takes one client, whose connection breaks before the room has taken its join. */
  lemma EarlyLeaveReachable(c: Client) returns (ns: seq<Net>, acts: seq<Action>)
    ensures Behaviour(ns, acts) && acts == [Connect(c), Hangup(c), TakeLeave(map[], map[]), TakeJoin([], map[], map[])]
    ensures RoomOf(ns[4]).None?
  {
    hide Run;
    var leave, join := Leave(c, map[], map[]), Join(c, [], map[], map[]);
    TwoSteps(c, leave, join);
    acts := [Connect(c), Hangup(c), TakeLeave(map[], map[]), TakeJoin([], map[], map[])];
    ns := [QUIET, Net([], [c], [], {c}), Net([], [c], [c], {c}),
           Net([leave], [c], [], {c}), Net([leave] + [join], [], [], {c})];
    assert At(INIT.mail, c) == NEW_MAIL;
  }

  // ---------------------------------------------------------------- the rejected joiner

  /** User `d` alone has sent `k` messages, and nobody has heard of `c`. */
  ghost predicate Chatty(n: Net, d: Client, c: Client, k: nat) {
    && Clean(n) && n.joins == [] && n.leaves == [] && n.served == {d}
    && var s := RoomOf(n).value;
       && !s.stopped && |s.history| == (if k <= HISTORY_SIZE then k else HISTORY_SIZE)
       && c !in s.welcomes && At(s.mail, c) == NEW_MAIL
  }

  /** A message with which its own author keeps up. */
  function Post(d: Client, id: nat): Action {
    TakeSend(d, id, "hi", map[d := CLIENT_SEND_BUFFER])
  }

  /** A join or a message, seen from a client that the room has not heard of. */
  lemma TakenChatty(n: Net, a: Action, e: Event, c: Client)
    requires Clean(n) && Enabled(n, a) && !RoomOf(n).value.stopped && (e.Join? || e.Send?)
    requires Next(n, a).events == n.events + [e] && Clean(Next(n, a))
    requires c !in RoomOf(n).value.welcomes && At(RoomOf(n).value.mail, c) == NEW_MAIL && (e.Join? ==> e.c != c)
    requires e.Join? ==> e.c !in RoomOf(n).value.welcomes
    ensures var s, t := RoomOf(n).value, RoomOf(Next(n, a)).value;
            && !t.stopped && c !in t.welcomes && At(t.mail, c) == NEW_MAIL
            && t.history == if e.Join? then s.history else Appended(s.history, Chat(e.id, e.user, e.body))
  {
    hide Run;
    hide Lawful;
    var s := RoomOf(n).value;
    LawfulSnoc(n.events, e);
    StaysNew(s, e, c);
    StepFollows(s, e);
  }

  lemma JoinFirst(d: Client, c: Client)
    requires c != d
    ensures var a := TakeJoin([], map[], map[]);
            Enabled(OneWaits(d), a) && Chatty(Next(OneWaits(d), a), d, c, 0)
  {
    var n, a := OneWaits(d), TakeJoin([], map[], map[]);
    ConnectFirst(d);
    hide Run;
    hide Clean;
    hide Step;
    ActClean(n, a);
    TakenChatty(n, a, Join(d, [], map[], map[]), c);
    CleanRuns(Next(n, a));
  }

  lemma FirstChatty(d: Client, c: Client) returns (ns: seq<Net>, acts: seq<Action>)
    requires c != d
    ensures Behaviour(ns, acts) && acts == [Connect(d), TakeJoin([], map[], map[])]
    ensures |ns| == 3 && Chatty(ns[2], d, c, 0)
  {
    hide Enabled;
    hide Next;
    hide Chatty;
    ConnectFirst(d);
    JoinFirst(d, c);
    acts := [Connect(d), TakeJoin([], map[], map[])];
    ns := [QUIET, OneWaits(d), Next(OneWaits(d), acts[1])];
  }

  lemma MoreChatty(n: Net, d: Client, c: Client, k: nat, id: nat)
    requires Chatty(n, d, c, k) && d.username != ""
    ensures Enabled(n, Post(d, id)) && Chatty(Next(n, Post(d, id)), d, c, k + 1)
  {
    hide Run;
    hide Clean;
    assert RoomOf(n).Some? by { CleanRuns(n); }
    var a := Post(d, id);
    ActClean(n, a);
    TakenChatty(n, a, Send(id, d.username, "hi", map[d := CLIENT_SEND_BUFFER]), c);
  }

  lemma {:induction false} Chatter(d: Client, c: Client, k: nat) returns (ns: seq<Net>, acts: seq<Action>)
    requires c != d && d.username != ""
    ensures Behaviour(ns, acts) && |acts| == k + 2 && |ns| == k + 3 && Chatty(ns[k + 2], d, c, k)
    ensures acts[..2] == [Connect(d), TakeJoin([], map[], map[])]
    ensures forall i :: 0 <= i < k ==> acts[i + 2] == Post(d, i)
  {
    hide Behaviour;
    hide Chatty;
    if k == 0 {
      ns, acts := FirstChatty(d, c);
    } else {
      ns, acts := Chatter(d, c, k - 1);
      var n := ns[k + 1];
      MoreChatty(n, d, c, k - 1, k - 1);
      Continued(ns, acts, Post(d, k - 1));
      ns, acts := ns + [Next(n, Post(d, k - 1))], acts + [Post(d, k - 1)];
    }
  }

  lemma RejectedRuns(n: Net, d: Client, c: Client, k: nat)
    requires Chatty(n, d, c, k) && k > CLIENT_SEND_BUFFER
    ensures var join, leave := Join(c, [], map[], map[]), Leave(c, map[], map[]);
            && RoomOf(n).Some? && !RoomOf(n).value.stopped && At(RoomOf(n).value.mail, c) == NEW_MAIL
            && Run(INIT, n.events + [join]).Some? && !Run(INIT, n.events + [join]).value.stopped
            && Run(INIT, n.events + [join] + [leave]).None?
  {
    hide Run;
    hide Lawful;
    hide Step;
    var join, leave := Join(c, [], map[], map[]), Leave(c, map[], map[]);
    RejectedJoinerCrashesRoom(RoomOf(n).value, c, map[], map[]);
    LawfulSnoc(n.events, join);
    LawfulSnoc(n.events + [join], leave);
  }

  /** From a busy room to the crash: a newcomer whose writer has not run, and its leave. */
  lemma RejectedLast(n: Net, d: Client, c: Client, k: nat)
    requires Chatty(n, d, c, k) && c != d && k > CLIENT_SEND_BUFFER
    ensures var take, leave := TakeJoin([], map[], map[]), TakeLeave(map[], map[]);
            && Enabled(n, Connect(c))
            && var n1 := Next(n, Connect(c));
            && Enabled(n1, take)
            && var n2 := Next(n1, take);
            && Enabled(n2, Hangup(c))
            && var n3 := Next(n2, Hangup(c));
            && Enabled(n3, leave) && RoomOf(Next(n3, leave)).None?
  {
    hide Run;
    hide Clean;
    RejectedRuns(n, d, c, k);
  }

  /** A user posts more messages than a queue holds and reads them all; a newcomer joins before
      its own writer runs, is rejected, and its leave crashes the process. */
  lemma RejectionReachable(d: Client, c: Client, k: nat) returns (ns: seq<Net>, acts: seq<Action>)
    requires c != d && d.username != "" && k > CLIENT_SEND_BUFFER
    ensures Behaviour(ns, acts) && RoomOf(ns[|acts|]).None?
    ensures |acts| == k + 6 && acts[..2] == [Connect(d), TakeJoin([], map[], map[])]
    ensures forall i :: 0 <= i < k ==> acts[i + 2] == Post(d, i)
    ensures acts[k + 2..] == [Connect(c), TakeJoin([], map[], map[]), Hangup(c), TakeLeave(map[], map[])]
  {
    hide Enabled;
    hide Next;
    hide Chatty;
    hide RoomOf;
    ns, acts := Chatter(d, c, k);
    RejectedLast(ns[k + 2], d, c, k);
    var n, posted := ns[k + 2], acts;
    Continued(ns, acts, Connect(c));
    var n1 := Next(n, Connect(c));
    ns, acts := ns + [n1], acts + [Connect(c)];
    Continued(ns, acts, TakeJoin([], map[], map[]));
    var n2 := Next(n1, TakeJoin([], map[], map[]));
    ns, acts := ns + [n2], acts + [TakeJoin([], map[], map[])];
    Continued(ns, acts, Hangup(c));
    var n3 := Next(n2, Hangup(c));
    ns, acts := ns + [n3], acts + [Hangup(c)];
    Continued(ns, acts, TakeLeave(map[], map[]));
    ns, acts := ns + [Next(n3, TakeLeave(map[], map[]))], acts + [TakeLeave(map[], map[])];
    assert acts == posted + [Connect(c), TakeJoin([], map[], map[]), Hangup(c), TakeLeave(map[], map[])];
    assert acts[..2] == posted[..2];
  }

  // ---------------------------------------------------------------- the count that stays too high

  /** One counted client, whose writer never runs. */
  ghost predicate Alone(s: State, c: Client) {
    && Good(s) && !s.stopped && s.clients == {c} && s.published == 1
    && c in s.mail && s.mail[c].taken == 0
  }

  lemma RegisteredAlone(c: Client)
    requires c.ViewerKey() != ""
    ensures var r := Register(INIT, c, NEW_MAIL);
            r.clients == {c} && r.mail == map[c := NEW_MAIL] && r.viewers == map[c.ViewerKey() := 1] && !r.stopped
  {
  }

  lemma AloneInFirst(s: State, msg: Message, c: Client)
    requires s.clients == {c} && c in s.mail && !s.mail[c].outClosed
    requires s.mail[c].taken == 0 && |s.mail[c].log| < CLIENT_SEND_BUFFER
    ensures Dispatch(s, msg, map[]).Some?
    ensures var t := Dispatch(s, msg, map[]).value;
            && t.clients == {c} && c in t.mail && t.mail[c] == s.mail[c].(log := s.mail[c].log + [msg])
            && t.published == s.published && t.stopped == s.stopped && t.viewers == s.viewers
  {
    assert Missed(s.mail, s.clients, map[]) == {};
    DropNone(ByViewer, s.viewers);
  }

  lemma JoinAlone(c: Client)
    requires c.ViewerKey() != ""
    ensures var r := Enter(Register(INIT, c, NEW_MAIL), c, map[], map[]);
            && r.Some? && !r.value.stopped && r.value.clients == {c} && r.value.published == 1
            && c in r.value.mail && r.value.mail[c].taken == 0 && |r.value.mail[c].log| <= 2
  {
    hide Dispatch;
    hide Register;
    RegisteredAlone(c);
    var s := Register(INIT, c, NEW_MAIL);
    var announced := First(s.presence, c.username);
    if announced { AloneInFirst(s, Joined(c.username), c); }
    var s2 := DispatchIf(s, announced, Joined(c.username), map[]).value;
    assert First(s.viewers, c.ViewerKey());
    AloneInFirst(Publish(s2), Viewers(|s2.viewers|), c);
  }

  /** A message fills the queue by one, or evicts the client. */
  lemma AloneSend(s: State, c: Client, m: Message)
    requires Alone(s, c) && c.ViewerKey() != ""
    ensures var r := SendStep(s, m, map[]);
            && r.Some? && r.value.published == 1
            && if s.mail[c].Full() then r.value.clients == {}
               else r.value.clients == {c} && !r.value.stopped && c in r.value.mail
                    && r.value.mail[c].taken == 0 && |r.value.mail[c].log| == |s.mail[c].log| + 1
  {
    hide Delivered;
    hide Unmet;
    hide Chronicle;
    hide Counted;
    hide Lockstep;
    hide Drop;
    var h := s.(history := Appended(s.history, m));
    if s.mail[c].Full() {
      assert Missed(s.mail, s.clients, map[]) == {c};
    } else {
      AloneInFirst(h, m, c);
    }
  }

  lemma FirstStep(c: Client)
    ensures Step(INIT, Join(c, [], map[], map[])) == Enter(Register(INIT, c, NEW_MAIL), c, map[], map[])
  {
    hide Enter;
  }

  /** A net with one client, which has joined and whose writer never runs. */
  ghost predicate OneStuck(n: Net, c: Client) {
    Clean(n) && n.served == {c} && RoomOf(n).Some? && Alone(RoomOf(n).value, c)
  }

  lemma StuckRoom(c: Client)
    requires c.username != ""
    ensures var r := Run(INIT, [] + [Join(c, [], map[], map[])]);
            && r.Some? && !r.value.stopped && r.value.clients == {c} && r.value.published == 1
            && c in r.value.mail && r.value.mail[c].taken == 0
  {
    assert Run(INIT, []) == Some(INIT);
    hide Run;
    hide Enter;
    hide Step;
    LawfulSnoc([], Join(c, [], map[], map[]));
    FirstStep(c);
    JoinAlone(c);
  }

  lemma CleanIsGood(n: Net)
    requires Clean(n)
    ensures Good(RoomOf(n).value)
  {
  }

  lemma JoinTaken(c: Client)
    ensures var n, a := OneWaits(c), TakeJoin([], map[], map[]);
            && Enabled(n, a) && Clean(Next(n, a))
            && Next(n, a) == Net([] + [Join(c, [], map[], map[])], [], [], {c})
  {
    ConnectFirst(c);
    hide Run;
    hide Clean;
    ActClean(OneWaits(c), TakeJoin([], map[], map[]));
  }

  lemma StuckFirst(c: Client)
    requires c.username != ""
    ensures var a := TakeJoin([], map[], map[]);
            Enabled(OneWaits(c), a) && OneStuck(Next(OneWaits(c), a), c)
  {
    hide Run;
    hide Clean;
    hide Good;
    hide Enabled;
    hide Next;
    JoinTaken(c);
    StuckRoom(c);
    CleanIsGood(Next(OneWaits(c), TakeJoin([], map[], map[])));
  }

  function Complaint(c: Client, id: nat): Action {
    TakeSend(c, id, "anybody?", map[])
  }

  lemma StuckTaken(n: Net, c: Client, id: nat)
    requires OneStuck(n, c) && c.username != ""
    ensures var a := Complaint(c, id);
            && Enabled(n, a) && Clean(Next(n, a)) && Lawful(Next(n, a).events) && Next(n, a).served == {c}
            && RoomOf(Next(n, a)) == SendStep(RoomOf(n).value, Chat(id, c.username, "anybody?"), map[])
  {
    hide Run;
    hide Lawful;
    hide SendStep;
    hide Good;
    ActClean(n, Complaint(c, id));
    LawfulSnoc(n.events, Send(id, c.username, "anybody?", map[]));
  }

  lemma StuckNext(n: Net, c: Client, id: nat)
    requires OneStuck(n, c) && c.username != ""
    ensures Enabled(n, Complaint(c, id))
    ensures var s, t := RoomOf(n).value, RoomOf(Next(n, Complaint(c, id)));
            && t.Some? && Lawful(Next(n, Complaint(c, id)).events) && t.value.published == 1
            && if s.mail[c].Full() then t.value.clients == {}
               else && OneStuck(Next(n, Complaint(c, id)), c)
                    && |t.value.mail[c].log| == |s.mail[c].log| + 1
  {
    StuckTaken(n, c, id);
    AloneSend(RoomOf(n).value, c, Chat(id, c.username, "anybody?"));
    hide Run;
    hide Clean;
    hide SendStep;
    hide Lawful;
    hide Enabled;
    if !RoomOf(n).value.mail[c].Full() { CleanIsGood(Next(n, Complaint(c, id))); }
    hide Good;
  }

  /** A logged-in viewer whose connection is stuck goes on posting: one of its own messages evicts it,
      and the cached count stays at one with nobody there. */
  lemma StaleCountReachable(c: Client) returns (ns: seq<Net>, acts: seq<Action>)
    requires c.username != ""
    ensures Behaviour(ns, acts) && |acts| > 2 && acts[..2] == [Connect(c), TakeJoin([], map[], map[])]
    ensures forall i :: 2 <= i < |acts| ==> acts[i] == Complaint(c, i - 2)
    ensures var before, after := RoomOf(ns[|acts| - 1]), RoomOf(ns[|acts|]);
            && before.Some? && before.value.clients == {c} && before.value.published == 1
            && after.Some? && after.value.clients == {} && after.value.published == 1
    ensures Lawful(ns[|acts|].events)
  {
    hide Enabled;
    hide Next;
    hide Lawful;
    hide RoomOf;
    hide Clean;
    hide Good;
    ConnectFirst(c);
    StuckFirst(c);
    acts := [Connect(c), TakeJoin([], map[], map[])];
    var n, k := Next(OneWaits(c), acts[1]), 0;
    ns := [QUIET, OneWaits(c), n];
    while !RoomOf(n).value.mail[c].Full()
      invariant OneStuck(n, c) && Behaviour(ns, acts) && |acts| == k + 2 && ns[k + 2] == n
      invariant acts[..2] == [Connect(c), TakeJoin([], map[], map[])]
      invariant forall i :: 2 <= i < |acts| ==> acts[i] == Complaint(c, i - 2)
      decreases CLIENT_SEND_BUFFER - |RoomOf(n).value.mail[c].log|
    {
      StuckNext(n, c, k);
      Continued(ns, acts, Complaint(c, k));
      n := Next(n, Complaint(c, k));
      ns, acts, k := ns + [n], acts + [Complaint(c, k)], k + 1;
    }
    StuckNext(n, c, k);
    Continued(ns, acts, Complaint(c, k));
    ns, acts := ns + [Next(n, Complaint(c, k))], acts + [Complaint(c, k)];
  }
}
