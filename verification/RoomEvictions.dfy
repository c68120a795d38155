/** Whom the room gives up: exactly the clients with 32 unread messages when it tries to send. */
module RoomEvictions {
  import opened Collections
  import opened Clients
  import opened RoomSpec
  import opened RoomSafety
  import opened RoomDelivery
  import opened RoomMessages

  /** The messages that a client has not read, after its writer has received up to `k` of them. */
  function Unread(m: Mail, k: nat): int {
    var waiting := |m.log| - m.taken;
    if waiting <= k then 0 else waiting - k
  }

  /** A receive takes what is there, at most `k`. */
  lemma ReceiveExactly(s: State, c: Client, k: nat)
    requires Safe(s) && c in s.mail
    ensures var r := Step(s, Receive(c, k));
            && r.Some? && c in r.value.mail
            && r.value.mail[c].log == s.mail[c].log
            && |s.mail[c].log| - r.value.mail[c].taken == Unread(s.mail[c], k)
            && r.value == s.(mail := s.mail[c := r.value.mail[c]])
  {
  }

  /** A broadcast is queued for exactly the clients with fewer than 32 unread messages; the others are
      closed, marked so, and no longer registered. */
  lemma EvictedExactly(s: State, msg: Message, pace: Pace, c: Client)
    requires Safe(s) && c in s.clients && Dispatch(s, msg, pace).Some?
    ensures var t := Dispatch(s, msg, pace).value;
            var before, k := s.mail[c], if c in pace then pace[c] else 0;
            && c in t.mail && (c in t.clients <==> Unread(before, k) < 32)
            && |before.log| - t.mail[c].taken == Unread(before, k)
            && t.mail[c].log == before.log + (if c in t.clients then [msg] else [])
            && (t.mail[c].outClosed <==> c !in t.clients) && (t.mail[c].closed <==> c !in t.clients)
  {
    hide Drop;
    hide Lockstep;
  }

  /** A newcomer whose writer receives each message of the backlog before the next is accepted, however
      long the backlog is. */
  lemma {:induction false} KeenWriterAccepted(m: Mail, history: seq<Message>, pace: seq<nat>)
    requires m.Wf() && |m.log| - m.taken <= 1 && |pace| >= |history| && forall k :: k in pace ==> k >= 1
    ensures Backlog(m, history, pace).1
    decreases |history|
  {
    if history != [] {
      assert pace[0] in pace && forall k :: k in pace[1..] ==> k in pace;
      var d := m.Drained(pace[0]);
      KeenWriterAccepted(d.(log := d.log + [history[0]]), history[1..], pace[1..]);
    }
  }

  // ---------------------------------------------------------------- who keeps up stays

  predicate Keen(pace: Pace, c: Client) {
    c in pace && pace[c] >= 32
  }

  /** The writer of `c` receives everything before each attempt of the room. */
  ghost predicate KeepsUp(e: Event, c: Client) {
    match e
    case Join(_, _, pace1, pace2) => Keen(pace1, c) && Keen(pace2, c)
    case Leave(_, pace1, pace2) => Keen(pace1, c) && Keen(pace2, c)
    case Send(_, _, _, pace) => Keen(pace, c)
    case _ => true
  }

  lemma DispatchIfKeeps(s: State, cond: bool, msg: Message, pace: Pace, c: Client)
    requires Safe(s) && c in s.clients && Keen(pace, c)
    ensures var r := DispatchIf(s, cond, msg, pace); r.Some? && Safe(r.value) && c in r.value.clients
  {
    DispatchIfSafe(s, cond, msg, pace);
    if cond { EvictedExactly(s, msg, pace, c); }
  }

  lemma RecountKeeps(s: State, pace: Pace, c: Client)
    requires Safe(s) && c in s.clients && Keen(pace, c)
    ensures var r := Recount(s, pace); r.Some? && c in r.value.clients
  {
    hide DispatchIf;
    hide Recount;
    AlwaysDispatch(s, pace);
    assert Safe(Publish(s));
    DispatchIfKeeps(Publish(s), true, Viewers(|s.viewers|), pace, c);
  }

  lemma GreetKeeps(s: State, d: Client, k: nat)
    requires Greet(s, d, k).Some?
    ensures Greet(s, d, k).value.clients == s.clients
  {
  }

  lemma EnterKeeps(s: State, d: Client, pace1: Pace, pace2: Pace, c: Client)
    requires Safe(s) && c in s.clients && Keen(pace1, c) && Keen(pace2, c) && Enter(s, d, pace1, pace2).Some?
    ensures c in Enter(s, d, pace1, pace2).value.clients
  {
    hide DispatchIf;
    hide Recount;
    hide Greet;
    hide Safe;
    var announced := First(s.presence, d.username);
    DispatchIfKeeps(s, announced, Joined(d.username), pace1, c);
    var s2 := DispatchIf(s, announced, Joined(d.username), pace1).value;
    if First(s.viewers, d.ViewerKey()) { RecountKeeps(s2, pace2, c); } else { GreetKeeps(s2, d, PaceOf(pace2, d)); }
  }

  lemma ExitKeeps(s: State, d: Client, pace1: Pace, pace2: Pace, c: Client)
    requires Safe(s) && c in s.clients && Keen(pace1, c) && Keen(pace2, c) && Exit(s, d, pace1, pace2).Some?
    ensures c in Exit(s, d, pace1, pace2).value.clients
  {
    hide DispatchIf;
    hide Recount;
    hide Safe;
    var announced := Last(s.presence, d.username);
    DispatchIfKeeps(s, announced, Left(d.username), pace1, c);
    var s2 := DispatchIf(s, announced, Left(d.username), pace1).value;
    if Last(s.viewers, d.ViewerKey()) { RecountKeeps(s2, pace2, c); }
  }

  lemma StepKeeps(s: State, e: Event, c: Client)
    requires Safe(s) && JoinsOnce(s, e) && Step(s, e).Some? && c in s.clients && KeepsUp(e, c)
    requires !e.Stop? && !(e.Leave? && e.c == c)
    ensures c in Step(s, e).value.clients
  {
    if !s.stopped {
      match e
      case Join(d, backlogPace, pace1, pace2) =>
        hide Enter;
        BacklogSafe(At(s.mail, d), s.history, backlogPace);
        var (m, fits) := Backlog(At(s.mail, d), s.history, backlogPace);
        if fits && !At(s.mail, d).outClosed {
          RegisterSafe(s, d, m);
          EnterKeeps(Register(s, d, m), d, pace1, pace2, c);
        } else if fits {
          RegisteredPanics(s, d, m, pace1, pace2);
        }
      case Leave(d, pace1, pace2) =>
        hide Exit;
        if !At(s.mail, d).closed {
          RemovedSafe(s, {d});
          ExitKeeps(Removed(s, {d}), d, pace1, pace2, c);
        }
      case Send(id, user, body, pace) =>
        hide Dispatch;
        var h := s.(history := Appended(s.history, Chat(id, user, body)));
        assert Safe(h);
        DispatchIfKeeps(h, true, Chat(id, user, body), pace, c);
      case _ =>
    }
  }

  /** A registered client that keeps up stays registered, whatever the others do, until its own leave
      or stop. */
  lemma {:induction false} ReaderStays(es: seq<Event>, more: seq<Event>, c: Client)
    requires JoinOnceRun(es + more) && Run(INIT, es).Some? && Run(INIT, es + more).Some?
    requires c in Run(INIT, es).value.clients
    requires forall e :: e in more ==> KeepsUp(e, c) && !e.Stop? && !(e.Leave? && e.c == c)
    ensures c in Run(INIT, es + more).value.clients
    decreases |more|
  {
    if more == [] {
      assert es + more == es;
    } else {
      var n := |more| - 1;
      assert es + more == es + more[..n] + [more[n]];
      hide Run;
      hide Step;
      hide Safe;
      hide JoinOnceRun;
      LastStep(es + more[..n], more[n]);
      ReaderStays(es, more[..n], c);
      assert more[n] in more;
      StepKeeps(Run(INIT, es + more[..n]).value, more[n], c);
    }
  }
}
