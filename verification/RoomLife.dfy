/** A room and everything that has happened to it: the objects of Rooms along a run of RoomSpec. */
module RoomLife {
  import opened Collections
  import opened Clients
  import opened RoomSpec
  import opened RoomDelivery
  import opened RoomCount
  import opened RoomAnnouncements
  import opened Rooms

  class Actor {
    const room: Room
    ghost var life: seq<Event>   // every step so far

    /** The room's objects hold what a lawful run leads to. */
    ghost predicate Living()
      reads this, room, room.history, room.known
    {
      room.Valid() && Lawful(life) && Run(INIT, life) == Some(room.Abs())
    }

    constructor ()
      ensures Living() && life == [] && fresh(room) && fresh(room.history)
    {
      room := new Room();
      life := [];
    }

    /** The step just taken by the room's objects. */
    ghost method Record(was: State, e: Event)
      requires Lawful(life) && Run(INIT, life) == Some(was) && Guard(was, e)
      requires room.Valid() && Step(was, e) == Some(room.Abs())
      modifies this`life
      ensures Living() && life == old(life) + [e]
    {
      hide Step;
      hide Run;
      hide Lawful;
      LawfulSnoc(life, e);
      life := life + [e];
    }

    lemma Succeeds(e: Event)
      requires Living() && Guard(room.Abs(), e)
      ensures Step(room.Abs(), e).Some?
    {
      hide Step;
      LawfulRunGood(life);
      StepGood(room.Abs(), e);
    }

    lemma JoinWords(was: State, c: Client, backlogPace: seq<nat>, pace1: Pace, pace2: Pace)
      requires Living() && !room.stopped && was == room.Abs() && Guard(was, RoomSpec.Join(c, backlogPace, pace1, pace2))
      ensures var r := Step(was, RoomSpec.Join(c, backlogPace, pace1, pace2));
              && r.Some?
              && r.value.broadcasts
                 == was.broadcasts + if Backlog(NEW_MAIL, was.history, backlogPace).1
                                     then Said(OnlyName(c, was.clients), c.username + " joined",
                                               OnlyOne(c, was.clients), CountOf(r.value))
                                     else []
    {
      hide Step;
      LawfulRunGood(life);
      JoinSays(was, c, backlogPace, pace1, pace2);
    }

    lemma LeaveWords(was: State, c: Client, pace1: Pace, pace2: Pace)
      requires Living() && !room.stopped && was == room.Abs() && Guard(was, RoomSpec.Leave(c, pace1, pace2))
      ensures var r := Step(was, RoomSpec.Leave(c, pace1, pace2));
              && r.Some?
              && r.value.broadcasts
                 == was.broadcasts + if c in was.clients
                                     then Said(OnlyName(c, was.clients - {c}), c.username + " left",
                                               OnlyOne(c, was.clients - {c}), CountOf(r.value))
                                     else []
    {
      hide Step;
      LawfulRunGood(life);
      LeaveSays(was, c, pace1, pace2);
    }

    lemma SendWords(was: State, e: Event)
      requires Living() && !room.stopped && was == room.Abs() && e.Send?
      ensures var r := Step(was, e); r.Some? && r.value.broadcasts == was.broadcasts + [Chat(e.id, e.user, e.body)]
    {
      hide Step;
      LawfulRunGood(life);
      SilentDepartures(was, e);
    }

    method Join(c: Client, backlogPace: seq<nat>, pace1: Pace, pace2: Pace)
      requires Living() && !room.stopped && room.Meets(c)
      requires Guard(room.Abs(), RoomSpec.Join(c, backlogPace, pace1, pace2))
      modifies this`life, room, room.known, c
      ensures Living() && life == old(life) + [RoomSpec.Join(c, backlogPace, pace1, pace2)]
      ensures room.broadcasts
           == old(room.broadcasts)
              + if Backlog(NEW_MAIL, old(room.Recent()), backlogPace).1
                then (if c.username != "" && forall d :: d in old(room.clients) ==> d.username != c.username
                      then [System(c.username + " joined")] else [])
                     + (if OnlyOne(c, old(room.clients))
                        then [Viewers(if room.viewerCount < 0 then 0 else room.viewerCount)] else [])
                else []
    {
      ghost var was, e := room.Abs(), RoomSpec.Join(c, backlogPace, pace1, pace2);
      Succeeds(e);
      JoinWords(was, c, backlogPace, pace1, pace2);
      hide JoinStep;
      var _ := room.Join(c, backlogPace, pace1, pace2);
      Record(was, e);
    }

    method Leave(c: Client, pace1: Pace, pace2: Pace) returns (idle: bool)
      requires Living() && !room.stopped && room.Meets(c)
      requires Guard(room.Abs(), RoomSpec.Leave(c, pace1, pace2))
      modifies this`life, room, room.known, c
      ensures Living() && life == old(life) + [RoomSpec.Leave(c, pace1, pace2)] && (idle <==> room.clients == {})
      ensures room.broadcasts
           == old(room.broadcasts)
              + if c in old(room.clients)
                then (if c.username != "" && forall d :: d in old(room.clients) && d != c ==> d.username != c.username
                      then [System(c.username + " left")] else [])
                     + (if OnlyOne(c, old(room.clients) - {c})
                        then [Viewers(if room.viewerCount < 0 then 0 else room.viewerCount)] else [])
                else []
    {
      ghost var was, e := room.Abs(), RoomSpec.Leave(c, pace1, pace2);
      Succeeds(e);
      LeaveWords(was, c, pace1, pace2);
      hide LeaveStep;
      var panicked;
      panicked, idle := room.Leave(c, pace1, pace2);
      Record(was, e);
    }

    method Send(id: nat, user: string, body: string, pace: Pace)
      requires Living() && !room.stopped
      modifies this`life, room, room.history, room.known
      ensures Living() && life == old(life) + [RoomSpec.Send(id, user, body, pace)]
      ensures room.broadcasts == old(room.broadcasts) + [Chat(id, user, body)]
    {
      ghost var was, e := room.Abs(), RoomSpec.Send(id, user, body, pace);
      Succeeds(e);
      SendWords(was, e);
      hide SendStep;
      var _ := room.Send(id, user, body, pace);
      Record(was, e);
    }

    method Stop()
      requires Living() && !room.stopped
      modifies this`life, room, room.known
      ensures Living() && life == old(life) + [RoomSpec.Stop]
    {
      ghost var was := room.Abs();
      Succeeds(RoomSpec.Stop);
      hide StopStep;
      var _ := room.Stop();
      Record(was, RoomSpec.Stop);
    }

    /** The writer of a client receives up to `k` messages. */
    method Receive(c: Client, k: nat)
      requires Living() && room.Meets(c)
      modifies this`life, room`known, c`taken
      ensures Living() && life == old(life) + [RoomSpec.Receive(c, k)]
    {
      ghost var was := room.Abs();
      room.Receive(c, k);
      Record(was, RoomSpec.Receive(c, k));
    }

    /** The users, and the cookies of guests, that are registered. */
    ghost function Distinct(): nat
      reads room
    {
      |Users(room.clients)| + |Cookies(room.clients)|
    }

    /** What a reader of the cached count gets. */
    lemma CountRead()
      requires Living()
      ensures Distinct() <= room.viewerCount
      ensures room.viewerCount == Distinct() <==> AllRepublished(life)
    {
      hide Run;
      CountExact(life);
    }
  }
}
