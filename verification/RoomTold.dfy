/** What each viewer was last told about the number of viewers. */
module RoomTold {
  import opened Collections
  import opened Clients
  import opened RoomSpec
  import opened RoomSafety
  import opened RoomDelivery
  import opened RoomPresence
  import opened RoomCount
  import opened RoomMessages

  /** The number in the last count among `ms`. */
  function LastCount(ms: seq<Message>): Option<nat> {
    if ms == [] then None
    else if ms[|ms| - 1].Viewers? then Some(ms[|ms| - 1].count)
    else LastCount(ms[..|ms| - 1])
  }

  lemma LastCountSnoc(ms: seq<Message>, m: Message)
    ensures LastCount(ms + [m]) == if m.Viewers? then Some(m.count) else LastCount(ms)
  {
    assert (ms + [m])[..|ms|] == ms;
  }

  lemma {:induction false} LastCountConcat(a: seq<Message>, b: seq<Message>)
    ensures LastCount(a + b) == if LastCount(b).Some? then LastCount(b) else LastCount(a)
  {
    if b == [] {
      assert a + b == a;
    } else {
      assert (a + b)[..|a + b| - 1] == a + b[..|b| - 1];
      LastCountConcat(a, b[..|b| - 1]);
    }
  }

  lemma {:induction false} NoCountInChats(ms: seq<Message>)
    requires forall m :: m in ms ==> m.Chat?
    ensures LastCount(ms) == None
  {
    if ms != [] {
      assert ms[|ms| - 1] in ms;
      NoCountInChats(ms[..|ms| - 1]);
    }
  }

  // ---------------------------------------------------------------- the invariant

  ghost predicate Placed(s: State) {
    forall c :: c in s.clients ==> c in s.welcomes && s.welcomes[c].start <= |s.broadcasts|
  }

  /** The last count broadcast is the one published. */
  ghost predicate Announced(s: State) {
    LastCount(s.broadcasts).Some? ==> LastCount(s.broadcasts).value == s.published
  }

  /** The last count broadcast since a client's join. */
  ghost function Since(s: State, c: Client): Option<nat>
    requires c in s.welcomes && s.welcomes[c].start <= |s.broadcasts|
  {
    LastCount(s.broadcasts[s.welcomes[c].start..])
  }

  /** A client that was only greeted was told what was true then. */
  ghost predicate Greeted(s: State, c: Client)
    requires c in s.welcomes && s.welcomes[c].start <= |s.broadcasts|
  {
    var greeting := LastCount(s.welcomes[c].opening);
    Since(s, c).None? && greeting.Some? ==> |s.viewers| <= greeting.value <= s.published
  }

  ghost predicate Told(s: State) {
    Placed(s) && Announced(s) && forall c :: c in s.clients ==> Greeted(s, c)
  }

  // ---------------------------------------------------------------- one operation at a time

  /** Broadcasts other than counts change nobody's last count. */
  lemma SinceStays(s: State, t: State, msg: Message, c: Client)
    requires c in s.welcomes && s.welcomes[c].start <= |s.broadcasts|
    requires t.broadcasts == s.broadcasts + [msg] && t.welcomes == s.welcomes
    ensures Since(t, c) == if msg.Viewers? then Some(msg.count) else Since(s, c)
  {
    var start := s.welcomes[c].start;
    assert t.broadcasts[start..] == s.broadcasts[start..] + [msg];
    LastCountSnoc(s.broadcasts[start..], msg);
  }

  lemma DispatchSays(s: State, msg: Message, pace: Pace)
    requires Dispatch(s, msg, pace).Some?
    ensures var t := Dispatch(s, msg, pace).value;
            && t.broadcasts == s.broadcasts + [msg] && t.welcomes == s.welcomes && t.clients <= s.clients
            && t.published == s.published && |t.viewers| <= |s.viewers|
  {
    hide SentTo;
    hide Missed;
    var t := Dispatch(s, msg, pace).value;
    assert t.viewers.Keys <= s.viewers.Keys;
    SubsetSize(t.viewers.Keys, s.viewers.Keys);
    assert |t.viewers| == |t.viewers.Keys| && |s.viewers| == |s.viewers.Keys|;
  }

  lemma DispatchTold(s: State, msg: Message, pace: Pace)
    requires !msg.Viewers? && Told(s) && Dispatch(s, msg, pace).Some?
    ensures Told(Dispatch(s, msg, pace).value)
  {
    hide Dispatch;
    hide Since;
    DispatchSays(s, msg, pace);
    var t := Dispatch(s, msg, pace).value;
    LastCountSnoc(s.broadcasts, msg);
    forall c | c in t.clients ensures Greeted(t, c) { SinceStays(s, t, msg, c); }
  }

  /** Everybody who is still there was told the count that was published. */
  lemma RecountTold(s: State, pace: Pace)
    requires Placed(s) && Recount(s, pace).Some?
    ensures Told(Recount(s, pace).value)
  {
    hide Dispatch;
    hide Since;
    var p, msg := Publish(s), Viewers(|s.viewers|);
    DispatchSays(p, msg, pace);
    var t := Recount(s, pace).value;
    LastCountSnoc(p.broadcasts, msg);
    forall c | c in t.clients ensures Greeted(t, c) { SinceStays(p, t, msg, c); }
  }

  lemma DispatchPlaced(s: State, cond: bool, msg: Message, pace: Pace)
    requires Placed(s) && DispatchIf(s, cond, msg, pace).Some?
    ensures Placed(DispatchIf(s, cond, msg, pace).value)
  {
    hide Dispatch;
    if cond { DispatchSays(s, msg, pace); }
  }

  lemma GreetTold(s: State, c: Client, k: nat)
    requires Told(s) && c in s.clients && |s.viewers| <= s.published && Greet(s, c, k).Some?
    ensures Told(Greet(s, c, k).value)
  {
    var t := Greet(s, c, k).value;
    LastCountSnoc(s.welcomes[c].opening, Viewers(|s.viewers|));
    forall d | d in t.clients ensures Greeted(t, d) {
      assert Since(t, d) == Since(s, d);
      assert Greeted(s, d);
    }
  }

  lemma NotAnnounced(s: State, msg: Message, pace: Pace)
    ensures DispatchIf(s, false, msg, pace) == Some(s)
  {
  }

  lemma PublishedBound(s: State)
    requires Published(s)
    ensures |s.viewers| <= s.published
  {
    SubsetSize(s.viewers.Keys, s.counted);
    assert |s.viewers| == |s.viewers.Keys|;
  }

  lemma EnterTold(s: State, c: Client, pace1: Pace, pace2: Pace)
    requires Placed(s) && c in s.clients && Enter(s, c, pace1, pace2).Some?
    requires First(s.viewers, c.ViewerKey()) || (Told(s) && Published(s) && !First(s.presence, c.username))
    ensures Told(Enter(s, c, pace1, pace2).value)
  {
    hide DispatchIf;
    hide Recount;
    hide Greet;
    hide Told;
    var announced := First(s.presence, c.username);
    DispatchPlaced(s, announced, Joined(c.username), pace1);
    var s2 := DispatchIf(s, announced, Joined(c.username), pace1).value;
    if First(s.viewers, c.ViewerKey()) {
      RecountTold(s2, pace2);
    } else {
      NotAnnounced(s, Joined(c.username), pace1);
      PublishedBound(s);
      GreetTold(s, c, PaceOf(pace2, c));
    }
  }

  lemma ExitTold(s: State, c: Client, pace1: Pace, pace2: Pace)
    requires Placed(s) && Exit(s, c, pace1, pace2).Some?
    requires Last(s.viewers, c.ViewerKey()) || (Told(s) && !Last(s.presence, c.username))
    ensures Told(Exit(s, c, pace1, pace2).value)
  {
    hide DispatchIf;
    hide Recount;
    hide Told;
    var announced := Last(s.presence, c.username);
    DispatchPlaced(s, announced, Left(c.username), pace1);
    var s2 := DispatchIf(s, announced, Left(c.username), pace1).value;
    if Last(s.viewers, c.ViewerKey()) {
      RecountTold(s2, pace2);
    } else {
      NotAnnounced(s, Left(c.username), pace1);
    }
  }

  /** Less is counted, of fewer clients: nothing that was said becomes too small. */
  lemma FewerTold(s: State, t: State)
    requires Told(s) && t.clients <= s.clients && |t.viewers| <= |s.viewers|
    requires t.welcomes == s.welcomes && t.broadcasts == s.broadcasts && t.published == s.published
    ensures Told(t)
  {
    forall c | c in t.clients ensures Greeted(t, c) {
      assert Greeted(s, c) && Since(t, c) == Since(s, c);
    }
  }

  lemma RegisterTold(s: State, c: Client, m: Mail)
    requires Told(s) && LastCount(s.history).None? && c !in s.clients
    requires |Register(s, c, m).viewers| == |s.viewers|
    ensures Told(Register(s, c, m))
  {
    hide Bump;
    var t := Register(s, c, m);
    forall d | d in t.clients ensures Greeted(t, d) {
      if d in s.clients { assert Greeted(s, d) && Since(t, d) == Since(s, d); }
    }
  }

  /** The backlog holds no counts. */
  lemma NoCountInHistory(s: State)
    requires Chronicle(s)
    ensures LastCount(s.history) == None
  {
    AllChats(s.broadcasts);
    NoCountInChats(s.history);
  }

  lemma RegisterPlaced(s: State, c: Client, m: Mail)
    requires Placed(s)
    ensures Placed(Register(s, c, m))
  {
    hide Bump;
  }

  lemma SameSize(a: map<string, int>, b: map<string, int>)
    requires a.Keys == b.Keys
    ensures |a| == |b|
  {
    assert |a| == |a.Keys| && |b| == |b.Keys|;
  }

  lemma NotRegistered(s: State, c: Client)
    requires Good(s) && c !in s.welcomes
    ensures c !in s.clients
  {
  }

  lemma RegisteredTold(s: State, c: Client, m: Mail)
    requires Good(s) && Published(s) && Told(s) && c !in s.welcomes
    requires m.Wf() && !m.outClosed && m.log == s.history
    ensures var r := Register(s, c, m);
            && Placed(r) && c in r.clients
            && (First(r.viewers, c.ViewerKey()) || (Told(r) && Published(r) && !First(r.presence, c.username)))
  {
    var r := Register(s, c, m);
    RegisterPlaced(s, c, m);
    RegisterCurrent(s, c, m);
    NotRegistered(s, c);
    RegisterKeys(s, c, m);
    if !First(r.viewers, c.ViewerKey()) {
      SameSize(r.viewers, s.viewers);
      NoCountInHistory(s);
      RegisterTold(s, c, m);
    }
  }

  lemma RejectTold(s: State, c: Client, m: Mail)
    requires Told(s) && c !in s.clients
    ensures Told(Reject(s, c, m))
  {
    var t := Reject(s, c, m);
    forall d | d in t.clients ensures Greeted(t, d) {
      assert Greeted(s, d) && Since(t, d) == Since(s, d);
    }
  }

  lemma JoinTold(s: State, c: Client, backlogPace: seq<nat>, pace1: Pace, pace2: Pace)
    requires Good(s) && Published(s) && Told(s) && c !in s.welcomes && At(s.mail, c) == NEW_MAIL
    requires JoinStep(s, c, backlogPace, pace1, pace2).Some?
    ensures Told(JoinStep(s, c, backlogPace, pace1, pace2).value)
  {
    hide Enter;
    hide Register;
    hide First;
    hide Kept;
    BacklogSafe(NEW_MAIL, s.history, backlogPace);
    BacklogLog(NEW_MAIL, s.history, backlogPace);
    var (m, fits) := Backlog(NEW_MAIL, s.history, backlogPace);
    assert NEW_MAIL.log + s.history == s.history;
    if fits {
      RegisteredTold(s, c, m);
      EnterTold(Register(s, c, m), c, pace1, pace2);
    } else {
      NotRegistered(s, c);
      RejectTold(s, c, m);
    }
  }

  lemma RemovedTold(s: State, c: Client)
    requires Good(s) && Told(s) && c in s.clients
    ensures Told(Removed(s, {c}))
  {
    KeysAfter(s, c);
    var t := Removed(s, {c});
    SubsetSize(t.viewers.Keys, s.viewers.Keys);
    assert |t.viewers| == |t.viewers.Keys| && |s.viewers| == |s.viewers.Keys|;
    FewerTold(s, t);
  }

  lemma LeaveTold(s: State, c: Client, pace1: Pace, pace2: Pace)
    requires Good(s) && Published(s) && Told(s) && (c in s.clients || At(s.mail, c).closed)
    requires LeaveStep(s, c, pace1, pace2).Some?
    ensures Told(LeaveStep(s, c, pace1, pace2).value)
  {
    hide Exit;
    hide Removed;
    hide Last;
    hide Good;
    if !At(s.mail, c).closed {
      RemovedTold(s, c);
      RemovedCurrent(s, c);
      ExitTold(Removed(s, {c}), c, pace1, pace2);
    }
  }

  lemma StopTold(s: State)
    requires Good(s) && Told(s) && !s.stopped && Step(s, Stop).Some?
    ensures Told(Step(s, Stop).value)
  {
    StopEmpties(s);
  }

  lemma QuietTold(s: State, e: Event)
    requires Told(s) && (s.stopped || e.Receive?)
    ensures Told(Step(s, e).value)
  {
    FewerTold(s, Step(s, e).value);
  }

  lemma SendTold(s: State, m: Message, pace: Pace)
    requires Told(s) && m.Chat? && SendStep(s, m, pace).Some?
    ensures Told(SendStep(s, m, pace).value)
  {
    hide Dispatch;
    var h := s.(history := Appended(s.history, m));
    FewerTold(s, h);
    DispatchTold(h, m, pace);
  }

  lemma StepTold(s: State, e: Event)
    requires Good(s) && Published(s) && Told(s) && Guard(s, e) && Step(s, e).Some?
    ensures Told(Step(s, e).value)
  {
    hide Good;
    hide Published;
    hide Told;
    hide JoinStep;
    hide LeaveStep;
    hide StopStep;
    if s.stopped || e.Receive? {
      QuietTold(s, e);
    } else {
      match e
      case Join(c, backlogPace, pace1, pace2) => JoinTold(s, c, backlogPace, pace1, pace2);
      case Leave(c, pace1, pace2) => LeaveTold(s, c, pace1, pace2);
      case Send(id, user, body, pace) => SendTold(s, Chat(id, user, body), pace);
      case _ => StopTold(s);
    }
  }

  // ---------------------------------------------------------------- every lawful run

  lemma {:induction false} RunTold(es: seq<Event>)
    requires Lawful(es) && Run(INIT, es).Some?
    ensures Told(Run(INIT, es).value)
  {
    if es != [] {
      var n := |es| - 1;
      hide Step;
      LawfulRunGood(es[..n]);
      RunCurrent(es[..n]);
      RunTold(es[..n]);
      StepTold(Run(INIT, es[..n]).value, es[n]);
    }
  }

  lemma LogIsDue(s: State, c: Client)
    requires Good(s) && c in s.clients
    ensures c in s.welcomes && s.welcomes[c].start <= |s.broadcasts|
    ensures At(s.mail, c).log == s.welcomes[c].opening + s.broadcasts[s.welcomes[c].start..]
  {
    assert Faithful(s, c);
  }

  lemma CountsOfLog(opening: seq<Message>, broadcasts: seq<Message>, start: nat)
    requires start <= |broadcasts|
    ensures var since := LastCount(broadcasts[start..]);
            && LastCount(opening + broadcasts[start..]) == (if since.Some? then since else LastCount(opening))
            && (since.Some? ==> since == LastCount(broadcasts))
  {
    hide LastCount;
    LastCountConcat(opening, broadcasts[start..]);
    LastCountConcat(broadcasts[..start], broadcasts[start..]);
    assert broadcasts[..start] + broadcasts[start..] == broadcasts;
  }

  lemma LogCounts(s: State, c: Client)
    requires Good(s) && Told(s) && c in s.clients
    ensures c in s.welcomes && s.welcomes[c].start <= |s.broadcasts|
    ensures var told, greeting := LastCount(At(s.mail, c).log), LastCount(s.welcomes[c].opening);
            && (Since(s, c).Some? ==> told == Some(s.published))
            && (Since(s, c).None? ==> told == greeting)
            && Greeted(s, c)
  {
    hide Good;
    hide LastCount;
    hide At;
    LogIsDue(s, c);
    CountsOfLog(s.welcomes[c].opening, s.broadcasts, s.welcomes[c].start);
  }

  /** The count that a registered client was last told lies between the distinct viewers and the
      cached count. If a count was broadcast since the client joined it is the cached one, and right
      exactly when every lost viewer was published. */
  lemma LastToldBounds(es: seq<Event>, c: Client)
    requires Lawful(es) && Run(INIT, es).Some? && c in Run(INIT, es).value.clients
    ensures var s := Run(INIT, es).value;
            var told := LastCount(At(s.mail, c).log);
            var distinct := |Users(s.clients)| + |Cookies(s.clients)|;
            && (told.Some? ==> distinct <= told.value <= s.published)
            && c in s.welcomes && s.welcomes[c].start <= |s.broadcasts|
            && (Since(s, c).Some? ==>
                  told == Some(s.published) && (told.value == distinct <==> AllRepublished(es)))
  {
    LawfulRunGood(es);
    RunCurrent(es);
    RunTold(es);
    hide Run;
    var s := Run(INIT, es).value;
    DistinctCounted(s);
    LogCounts(s, c);
  }
}
