/** Joined and left announcements balance, and a user's announcements alternate. */
module RoomPresence {
  import opened Collections
  import opened Clients
  import opened RoomSpec
  import opened RoomSafety
  import opened RoomDelivery

  // ---------------------------------------------------------------- accounting

  /** Joined announcements of `u`, less its left announcements, its silent departures and its
      presence now. Zero at every step boundary. */
  ghost function Defect(s: State, u: string): int {
    var sent := multiset(s.broadcasts);
    var joins: int, lefts: int, silent: int := sent[Joined(u)], sent[Left(u)], s.vanished[u];
    joins - lefts - silent - if u in s.presence then 1 else 0
  }

  lemma DistinctAnnouncements(u: string, v: string)
    ensures Joined(u) == Joined(v) <==> u == v
    ensures Left(u) == Left(v) <==> u == v
    ensures Joined(u) != Left(v)
  {
    var j, l := " joined", " left";
    assert (u + j)[..|u + j| - |j|] == u && (v + j)[..|v + j| - |j|] == v;
    assert (u + l)[..|u + l| - |l|] == u && (v + l)[..|v + l| - |l|] == v;
    assert (u + j)[|u + j| - 1] == 'd' && (v + l)[|v + l| - 1] == 't';
  }

  lemma DispatchDefect(s: State, msg: Message, pace: Pace, u: string)
    requires Dispatch(s, msg, pace).Some?
    ensures Defect(Dispatch(s, msg, pace).value, u)
         == Defect(s, u) + (if msg == Joined(u) then 1 else 0) - (if msg == Left(u) then 1 else 0)
  {
    DistinctAnnouncements(u, u);
  }

  lemma CountDefect(s: State, pace: Pace, u: string)
    requires Recount(s, pace).Some?
    ensures Defect(Recount(s, pace).value, u) == Defect(s, u)
  {
    DispatchDefect(Publish(s), Viewers(|s.viewers|), pace, u);
  }

  lemma GreetKeepsLog(s: State, c: Client, k: nat)
    requires Greet(s, c, k).Some?
    ensures var t := Greet(s, c, k).value;
            && t.broadcasts == s.broadcasts && t.presence == s.presence && t.vanished == s.vanished
            && t.viewers == s.viewers && t.counted == s.counted && t.published == s.published
  {
  }

  lemma EnterDefect(s: State, c: Client, pace1: Pace, pace2: Pace, u: string)
    requires Enter(s, c, pace1, pace2).Some?
    requires Defect(s, u) == if First(s.presence, c.username) && u == c.username then -1 else 0
    ensures Defect(Enter(s, c, pace1, pace2).value, u) == 0
  {
    DistinctAnnouncements(u, c.username);
    DistinctAnnouncements(c.username, u);
    var announced := First(s.presence, c.username);
    if announced { DispatchDefect(s, Joined(c.username), pace1, u); }
    var s2 := DispatchIf(s, announced, Joined(c.username), pace1).value;
    if First(s.viewers, c.ViewerKey()) { CountDefect(s2, pace2, u); } else { GreetKeepsLog(s2, c, PaceOf(pace2, c)); }
  }

  lemma ExitDefect(s: State, c: Client, pace1: Pace, pace2: Pace, u: string)
    requires Exit(s, c, pace1, pace2).Some?
    requires Defect(s, u) == if Last(s.presence, c.username) && u == c.username then 1 else 0
    ensures Defect(Exit(s, c, pace1, pace2).value, u) == 0
  {
    DistinctAnnouncements(u, c.username);
    DistinctAnnouncements(c.username, u);
    var announced := Last(s.presence, c.username);
    if announced { DispatchDefect(s, Left(c.username), pace1, u); }
    var s2 := DispatchIf(s, announced, Left(c.username), pace1).value;
    if Last(s.viewers, c.ViewerKey()) { CountDefect(s2, pace2, u); }
  }

  /** A name is counted for the first time exactly when nobody held it. */
  lemma FirstOrSeen(w: Counter, cs: set<Client>, c: Client)
    requires c !in cs
    ensures First(Bump(w, Tally(w, cs), c), KeyOf(w, c)) <==> KeyOf(w, c) != "" && KeyOf(w, c) !in Tally(w, cs)
  {
    TallyKeys(w, cs, KeyOf(w, c));
  }

  /** A name is counted for the last time exactly when its last holder goes. */
  lemma LastOrKept(w: Counter, cs: set<Client>, c: Client)
    requires c in cs && KeyOf(w, c) != ""
    ensures KeyOf(w, c) in Tally(w, cs)
    ensures forall k :: k != KeyOf(w, c) ==> (k in Drop(w, Tally(w, cs), {c}) <==> k in Tally(w, cs))
  {
    TallyKeys(w, cs, KeyOf(w, c));
    forall k | k != KeyOf(w, c) ensures Holders(w, {c}, k) == {} {}
  }

  lemma RegisterDefect(s: State, c: Client, m: Mail, u: string)
    requires Counted(s) && c !in s.clients && Defect(s, u) == 0
    ensures var t := Register(s, c, m);
            Defect(t, u) == if First(t.presence, c.username) && u == c.username then -1 else 0
  {
    FirstOrSeen(ByUser, s.clients, c);
  }

  lemma RemovedDefect(s: State, c: Client, u: string)
    requires Counted(s) && c in s.clients && Defect(s, u) == 0
    ensures var t := Removed(s, {c});
            Defect(t, u) == if Last(t.presence, c.username) && u == c.username then 1 else 0
  {
    if c.username != "" {
      LastOrKept(ByUser, s.clients, c);
    } else {
      assert forall k :: Holders(ByUser, {c}, k) == {};
    }
  }

  lemma JoinDefect(s: State, c: Client, backlogPace: seq<nat>, pace1: Pace, pace2: Pace, u: string)
    requires Counted(s) && c !in s.clients && Defect(s, u) == 0
    requires JoinStep(s, c, backlogPace, pace1, pace2).Some?
    ensures Defect(JoinStep(s, c, backlogPace, pace1, pace2).value, u) == 0
  {
    var (m, fits) := Backlog(At(s.mail, c), s.history, backlogPace);
    if fits {
      RegisterDefect(s, c, m, u);
      EnterDefect(Register(s, c, m), c, pace1, pace2, u);
    }
  }

  lemma LeaveDefect(s: State, c: Client, pace1: Pace, pace2: Pace, u: string)
    requires Counted(s) && Defect(s, u) == 0
    requires c in s.clients || At(s.mail, c).closed
    requires LeaveStep(s, c, pace1, pace2).Some?
    ensures Defect(LeaveStep(s, c, pace1, pace2).value, u) == 0
  {
    if !At(s.mail, c).closed {
      RemovedDefect(s, c, u);
      ExitDefect(Removed(s, {c}), c, pace1, pace2, u);
    }
  }

  lemma StopDefect(s: State, u: string)
    requires Good(s) && Defect(s, u) == 0 && StopStep(s).Some?
    ensures Defect(StopStep(s).value, u) == 0
  {
  }

  lemma SendDefect(s: State, m: Message, pace: Pace, u: string)
    requires m.Chat? && Defect(s, u) == 0 && SendStep(s, m, pace).Some?
    ensures Defect(SendStep(s, m, pace).value, u) == 0
  {
    DispatchDefect(s.(history := Appended(s.history, m)), m, pace, u);
  }

  lemma StepDefect(s: State, e: Event, u: string)
    requires Good(s) && Guard(s, e) && Defect(s, u) == 0
    ensures Step(s, e).Some? && Defect(Step(s, e).value, u) == 0
  {
    StepGood(s, e);
    if !s.stopped {
      match e
      case Join(c, backlogPace, pace1, pace2) => JoinDefect(s, c, backlogPace, pace1, pace2, u);
      case Leave(c, pace1, pace2) => LeaveDefect(s, c, pace1, pace2, u);
      case Send(id, user, body, pace) => SendDefect(s, Chat(id, user, body), pace, u);
      case Stop => StopDefect(s, u);
      case _ =>
    }
  }

  lemma {:induction false} NoDefect(es: seq<Event>, u: string)
    requires Lawful(es) && Run(INIT, es).Some?
    ensures Defect(Run(INIT, es).value, u) == 0
  {
    if es != [] {
      var front := es[..|es| - 1];
      LawfulRunGood(front);
      NoDefect(front, u);
      StepDefect(Run(INIT, front).value, es[|es| - 1], u);
    }
  }

  /** For every user, at every step boundary of every lawful run:
      #joined == #left + #silent departures + (1 if connected). */
  lemma {:induction false} PresenceAccounting(es: seq<Event>, u: string)
    requires Lawful(es)
    ensures Run(INIT, es).Some?
    ensures var s := Run(INIT, es).value;
            multiset(s.broadcasts)[System(u + " joined")]
            == multiset(s.broadcasts)[System(u + " left")] + s.vanished[u]
               + if exists c :: c in s.clients && c.username == u && u != "" then 1 else 0
  {
    LawfulRunGood(es);
    NoDefect(es, u);
    TallyKeys(ByUser, Run(INIT, es).value.clients, u);
  }

  // ---------------------------------------------------------------- alternation

  /** Whether the last announcement about `u` is that it joined. */
  ghost predicate LastJoined(ms: seq<Message>, u: string) {
    ms != [] &&
    var m := ms[|ms| - 1];
    m == System(u + " joined") || (m != System(u + " left") && LastJoined(ms[..|ms| - 1], u))
  }

  /** Every "left" of `u` comes after a "joined" with no other "left" in between. */
  ghost predicate Alternates(ms: seq<Message>, u: string) {
    ms == [] ||
    var front := ms[..|ms| - 1];
    Alternates(front, u) && (ms[|ms| - 1] == System(u + " left") ==> LastJoined(front, u))
  }

  ghost predicate Paired(s: State, u: string) {
    Alternates(s.broadcasts, u) && (u in s.presence ==> LastJoined(s.broadcasts, u))
  }

  lemma DispatchPaired(s: State, msg: Message, pace: Pace, u: string)
    requires Dispatch(s, msg, pace).Some? && Alternates(s.broadcasts, u)
    requires if msg == Left(u) then LastJoined(s.broadcasts, u) && u !in s.presence
             else u in s.presence ==> msg == Joined(u) || LastJoined(s.broadcasts, u)
    ensures Paired(Dispatch(s, msg, pace).value, u)
  {
    assert (s.broadcasts + [msg])[..|s.broadcasts|] == s.broadcasts;
    DistinctAnnouncements(u, u);
  }

  lemma CountPaired(s: State, pace: Pace, u: string)
    requires Recount(s, pace).Some? && Paired(s, u)
    ensures Paired(Recount(s, pace).value, u)
  {
    DispatchPaired(Publish(s), Viewers(|s.viewers|), pace, u);
  }

  lemma EnterPaired(s: State, c: Client, pace1: Pace, pace2: Pace, u: string)
    requires Enter(s, c, pace1, pace2).Some? && Alternates(s.broadcasts, u)
    requires u in s.presence && !(First(s.presence, c.username) && u == c.username) ==> LastJoined(s.broadcasts, u)
    ensures Paired(Enter(s, c, pace1, pace2).value, u)
  {
    DistinctAnnouncements(u, c.username);
    DistinctAnnouncements(c.username, u);
    var announced := First(s.presence, c.username);
    if announced { DispatchPaired(s, Joined(c.username), pace1, u); }
    var s2 := DispatchIf(s, announced, Joined(c.username), pace1).value;
    if First(s.viewers, c.ViewerKey()) { CountPaired(s2, pace2, u); } else { GreetKeepsLog(s2, c, PaceOf(pace2, c)); }
  }

  lemma ExitPaired(s: State, c: Client, pace1: Pace, pace2: Pace, u: string)
    requires Exit(s, c, pace1, pace2).Some? && Paired(s, u)
    requires Last(s.presence, c.username) && u == c.username ==> LastJoined(s.broadcasts, u)
    ensures Paired(Exit(s, c, pace1, pace2).value, u)
  {
    DistinctAnnouncements(u, c.username);
    DistinctAnnouncements(c.username, u);
    var announced := Last(s.presence, c.username);
    if announced { DispatchPaired(s, Left(c.username), pace1, u); }
    var s2 := DispatchIf(s, announced, Left(c.username), pace1).value;
    if Last(s.viewers, c.ViewerKey()) { CountPaired(s2, pace2, u); }
  }

  lemma JoinPaired(s: State, c: Client, backlogPace: seq<nat>, pace1: Pace, pace2: Pace, u: string)
    requires Counted(s) && c !in s.clients && Paired(s, u)
    requires JoinStep(s, c, backlogPace, pace1, pace2).Some?
    ensures Paired(JoinStep(s, c, backlogPace, pace1, pace2).value, u)
  {
    var (m, fits) := Backlog(At(s.mail, c), s.history, backlogPace);
    if fits {
      FirstOrSeen(ByUser, s.clients, c);
      EnterPaired(Register(s, c, m), c, pace1, pace2, u);
    }
  }

  lemma LeavePaired(s: State, c: Client, pace1: Pace, pace2: Pace, u: string)
    requires Counted(s) && Paired(s, u)
    requires c in s.clients || At(s.mail, c).closed
    requires LeaveStep(s, c, pace1, pace2).Some?
    ensures Paired(LeaveStep(s, c, pace1, pace2).value, u)
  {
    if !At(s.mail, c).closed {
      if c.username != "" { LastOrKept(ByUser, s.clients, c); }
      ExitPaired(Removed(s, {c}), c, pace1, pace2, u);
    }
  }

  lemma SendPaired(s: State, m: Message, pace: Pace, u: string)
    requires m.Chat? && Paired(s, u) && SendStep(s, m, pace).Some?
    ensures Paired(SendStep(s, m, pace).value, u)
  {
    DispatchPaired(s.(history := Appended(s.history, m)), m, pace, u);
  }

  lemma StepPaired(s: State, e: Event, u: string)
    requires Good(s) && Guard(s, e) && Paired(s, u)
    ensures Step(s, e).Some? && Paired(Step(s, e).value, u)
  {
    StepGood(s, e);
    if !s.stopped {
      match e
      case Join(c, backlogPace, pace1, pace2) => JoinPaired(s, c, backlogPace, pace1, pace2, u);
      case Leave(c, pace1, pace2) => LeavePaired(s, c, pace1, pace2, u);
      case Send(id, user, body, pace) => SendPaired(s, Chat(id, user, body), pace, u);
      case _ =>
    }
  }

  lemma {:induction false} RunPaired(es: seq<Event>, u: string)
    requires Lawful(es) && Run(INIT, es).Some?
    ensures Paired(Run(INIT, es).value, u)
  {
    if es != [] {
      var front := es[..|es| - 1];
      LawfulRunGood(front);
      RunPaired(front, u);
      StepPaired(Run(INIT, front).value, es[|es| - 1], u);
    }
  }

  /** No two "left" announcements of a user without a "joined" between them, no "left" before the
      first "joined", and the last word about a connected user is that it joined. */
  lemma AnnouncementsAlternate(es: seq<Event>, u: string)
    requires Lawful(es) && Run(INIT, es).Some?
    ensures var s := Run(INIT, es).value;
            && Alternates(s.broadcasts, u)
            && (u != "" && (exists c :: c in s.clients && c.username == u) ==> LastJoined(s.broadcasts, u))
  {
    LawfulRunGood(es);
    RunPaired(es, u);
    TallyKeys(ByUser, Run(INIT, es).value.clients, u);
  }
}
