/** What every step of a lawful run broadcasts, word for word. */
module RoomAnnouncements {
  import opened Collections
  import opened Clients
  import opened RoomSpec
  import opened RoomSafety
  import opened RoomDelivery
  import opened RoomPresence
  import opened RoomReference
  import opened RoomCount

  /** `c` has a name that none of the others has. */
  predicate OnlyName(c: Client, others: set<Client>) {
    c.username != "" && forall d :: d in others ==> d.username != c.username
  }

  /** The message with the published count. */
  function CountOf(s: State): Message {
    Viewers(if s.published < 0 then 0 else s.published)
  }

  /** An announcement, then the new count, each if there is cause. */
  function Said(named: bool, text: string, counted: bool, count: Message): seq<Message> {
    (if named then [System(text)] else []) + (if counted then [count] else [])
  }

  lemma DispatchIfSays(s: State, cond: bool, msg: Message, pace: Pace)
    requires DispatchIf(s, cond, msg, pace).Some?
    ensures var t := DispatchIf(s, cond, msg, pace).value;
            t.broadcasts == s.broadcasts + (if cond then [msg] else []) && t.published == s.published
  {
    hide Drop;
    hide SentTo;
    hide Missed;
  }

  lemma RecountSays(s: State, pace: Pace)
    requires Recount(s, pace).Some?
    ensures var t := Recount(s, pace).value; t.broadcasts == s.broadcasts + [CountOf(t)]
  {
    hide Drop;
    hide SentTo;
    hide Missed;
  }

  lemma GreetSays(s: State, c: Client, k: nat)
    requires Greet(s, c, k).Some?
    ensures Greet(s, c, k).value.broadcasts == s.broadcasts
  {
  }

  lemma EnterSays(s: State, c: Client, pace1: Pace, pace2: Pace)
    requires Enter(s, c, pace1, pace2).Some?
    ensures var t := Enter(s, c, pace1, pace2).value;
            t.broadcasts == s.broadcasts + Said(First(s.presence, c.username), c.username + " joined",
                                                First(s.viewers, c.ViewerKey()), CountOf(t))
  {
    hide DispatchIf;
    hide Recount;
    hide Greet;
    hide First;
    var announced := First(s.presence, c.username);
    DispatchIfSays(s, announced, Joined(c.username), pace1);
    var s2 := DispatchIf(s, announced, Joined(c.username), pace1).value;
    if First(s.viewers, c.ViewerKey()) { RecountSays(s2, pace2); } else { GreetSays(s2, c, PaceOf(pace2, c)); }
  }

  lemma ExitSays(s: State, c: Client, pace1: Pace, pace2: Pace)
    requires Exit(s, c, pace1, pace2).Some?
    ensures var t := Exit(s, c, pace1, pace2).value;
            t.broadcasts == s.broadcasts + Said(Last(s.presence, c.username), c.username + " left",
                                                Last(s.viewers, c.ViewerKey()), CountOf(t))
  {
    hide DispatchIf;
    hide Recount;
    hide Last;
    var announced := Last(s.presence, c.username);
    DispatchIfSays(s, announced, Left(c.username), pace1);
    var s2 := DispatchIf(s, announced, Left(c.username), pace1).value;
    if Last(s.viewers, c.ViewerKey()) { RecountSays(s2, pace2); }
  }

  lemma RegisteredName(s: State, c: Client, m: Mail)
    requires Counted(s) && c !in s.clients
    ensures First(Register(s, c, m).presence, c.username) <==> OnlyName(c, s.clients)
  {
    BumpTally(ByUser, s.clients, c);
    FirstIsNew(ByUser, s.clients, c);
  }

  lemma RemovedName(s: State, c: Client)
    requires Counted(s) && c in s.clients
    ensures Last(Removed(s, {c}).presence, c.username) <==> OnlyName(c, s.clients - {c})
  {
    DropTally(ByUser, s.clients, {c});
    LastIsGone(ByUser, s.clients - {c}, c.username);
  }

  /** An accepted join announces the name that nobody held, as joined, and then the count if the joiner
      is a new viewer; a rejected one says nothing. */
  lemma JoinSays(s: State, c: Client, backlogPace: seq<nat>, pace1: Pace, pace2: Pace)
    requires Good(s) && !s.stopped && c !in s.welcomes && At(s.mail, c) == NEW_MAIL
    ensures var r := Step(s, Join(c, backlogPace, pace1, pace2));
            && r.Some?
            && r.value.broadcasts
               == s.broadcasts + if Backlog(NEW_MAIL, s.history, backlogPace).1
                                 then Said(OnlyName(c, s.clients), c.username + " joined",
                                           OnlyOne(c, s.clients), CountOf(r.value))
                                 else []
  {
    hide Enter;
    hide First;
    hide OnlyName;
    hide OnlyOne;
    hide Said;
    JoinKept(s, c, backlogPace, pace1, pace2);
    assert c !in s.clients && Counted(s);
    hide Good;
    hide Counted;
    var (m, fits) := Backlog(NEW_MAIL, s.history, backlogPace);
    if fits {
      RegisteredName(s, c, m);
      RegisterKeys(s, c, m);
      EnterSays(Register(s, c, m), c, pace1, pace2);
    }
  }

  /** A leave announces the name of its last holder, as left, and then the count if no other connection
      of that viewer is registered; a repeated leave says nothing. */
  lemma LeaveSays(s: State, c: Client, pace1: Pace, pace2: Pace)
    requires Good(s) && !s.stopped && (c in s.clients || At(s.mail, c).closed)
    ensures var r := Step(s, Leave(c, pace1, pace2));
            && r.Some?
            && r.value.broadcasts
               == s.broadcasts + if c in s.clients
                                 then Said(OnlyName(c, s.clients - {c}), c.username + " left",
                                           OnlyOne(c, s.clients - {c}), CountOf(r.value))
                                 else []
  {
    hide Exit;
    hide Last;
    hide OnlyName;
    hide OnlyOne;
    hide Said;
    LeaveKept(s, c, pace1, pace2);
    ClosedIsGone(s, c);
    if c in s.clients {
      assert !At(s.mail, c).closed && Counted(s);
      hide Good;
      hide Counted;
      RemovedName(s, c);
      KeysAfter(s, c);
      ExitSays(Removed(s, {c}), c, pace1, pace2);
    }
  }

  lemma NamesCounted(s: State)
    requires Good(s)
    ensures s.presence.Keys == Users(s.clients)
  {
  }

  lemma SendSays(s: State, m: Message, pace: Pace)
    requires SendStep(s, m, pace).Some?
    ensures var t := SendStep(s, m, pace).value;
            t.broadcasts == s.broadcasts + [m] && t.vanished == s.vanished + multiset(s.presence.Keys - t.presence.Keys)
  {
    hide Drop;
    hide SentTo;
    hide Missed;
  }

  lemma StopSays(s: State)
    requires StopStep(s).Some?
    ensures var t := StopStep(s).value;
            t.broadcasts == s.broadcasts && t.vanished == s.vanished + multiset(s.presence.Keys - t.presence.Keys)
  {
    hide Drop;
  }

  /** Who falls silent: a message or stop takes the last connection of these users, unannounced. */
  lemma SilentDepartures(s: State, e: Event)
    requires Good(s) && !s.stopped && (e.Send? || e.Stop?)
    ensures var r := Step(s, e);
            && r.Some?
            && r.value.vanished == s.vanished + multiset(Users(s.clients) - Users(r.value.clients))
            && r.value.broadcasts == s.broadcasts + if e.Send? then [Chat(e.id, e.user, e.body)] else []
  {
    StepGood(s, e);
    NamesCounted(s);
    NamesCounted(Step(s, e).value);
    if e.Send? { SendSays(s, Chat(e.id, e.user, e.body), e.pace); } else { StopSays(s); }
  }
}
