/** The room manager as it is written: a map of entries that its methods update under one lock.
    Every lock region and every close is recorded as a step of ManagerProtocol. */
module RoomManager {
  import opened Collections
  import opened ManagerProtocol
  import RoomLife
  import RoomCount

  /** A room as the manager holds it. `stops` is how often its stop channel was closed. */
  class ManagedRoom {
    const name: string
    ghost const id: nat
    const actor: RoomLife.Actor
    var stops: nat

    constructor (name: string, ghost id: nat)
      ensures this.name == name && this.id == id && stops == 0
      ensures fresh(actor) && fresh(actor.room) && Unused()
    {
      this.name, this.id, stops := name, id, 0;
      actor := new RoomLife.Actor();
    }

    /** Its goroutine has done nothing yet. */
    ghost predicate Unused()
      reads actor, actor.room, actor.room.history, actor.room.known
    {
      actor.Living() && actor.life == []
    }

    /** close(stop), which panics on a closed channel. */
    method CloseStop()
      requires stops == 0
      modifies this`stops
      ensures stops == 1
    {
      stops := stops + 1;
    }
  }

  class Timer {
    const channelName: string
    ghost const id: nat
    ghost const room: nat           // the room registered when it was made
    ghost const reports: seq<nat>   // the rooms whose reports made it and those it replaced
    var state: TimerState

    constructor (channelName: string, ghost id: nat, ghost room: nat, ghost reports: seq<nat>)
      ensures Record() == TimerRecord(channelName, room, reports, Armed) && this.id == id
    {
      this.channelName, this.id, this.room, this.reports, state := channelName, id, room, reports, Armed;
    }

    ghost function Record(): TimerRecord
      reads this
    {
      TimerRecord(channelName, room, reports, state)
    }

    /** Has no effect on a callback that is due. */
    method Stop()
      modifies this`state
      ensures state == if old(state).Armed? then Cancelled else old(state)
    {
      if state.Armed? {
        state := Cancelled;
      }
    }
  }

  class RoomEntry {
    const room: ManagedRoom
    var reapTimer: Timer?

    constructor (room: ManagedRoom)
      ensures this.room == room && reapTimer == null
    {
      this.room, reapTimer := room, null;
    }

    ghost function Record(): Entry
      reads this
    {
      Entry(room.id, if reapTimer == null then None else Some(reapTimer.id))
    }
  }

  lemma StopNone(timers: map<nat, TimerRecord>)
    ensures StopTimer(timers, None) == timers
  {
  }

  /** The two halves of scheduleReap: the old timer goes, then the new one comes. */
  lemma IdleMade(s: State, name: string, from: nat, id: nat)
    requires name in s.rooms
    ensures var e := s.rooms[name];
            var bare := s.rooms[name := e.(timer := None)];
            Next(s, Idle(name, from, id))
            == s.(rooms := bare[name := bare[name].(timer := Some(id))],
                  timers := StopTimer(s.timers, e.timer)
                              [id := TimerRecord(name, bare[name].room, Reports(s.timers, e.timer) + [from], Armed)])
  {
    var e := s.rooms[name];
    var bare := s.rooms[name := e.(timer := None)];
    assert bare[name := bare[name].(timer := Some(id))] == s.rooms[name := e.(timer := Some(id))];
  }

  lemma AskMade(s: State, name: string, id: nat)
    requires name !in s.rooms && !s.stopped
    ensures Next(s, Ask(name, id)) == s.(rooms := s.rooms[name := Entry(id, None)], created := s.created[id := name])
  {
  }

  lemma ClaimMade(s: State, id: nat)
    requires id in s.timers
    ensures var name, ran := s.timers[id].name, s.timers[id := s.timers[id].(state := Spent)];
            Next(s, Claim(id))
            == if name !in s.rooms then s.(timers := ran)
               else s.(timers := ran, rooms := s.rooms - {name}, pending := s.pending + multiset{s.rooms[name].room})
  {
  }

  function Among(rooms: map<string, Entry>, names: set<string>): map<string, Entry> {
    map n | n in rooms && n in names :: rooms[n]
  }

  lemma StopHeldNone(timers: map<nat, TimerRecord>, rooms: map<string, Entry>)
    ensures StopHeld(timers, Among(rooms, {})) == timers
  {
  }

  lemma StopHeldMore(timers: map<nat, TimerRecord>, rooms: map<string, Entry>, done: set<string>, name: string)
    requires name in rooms
    ensures StopTimer(StopHeld(timers, Among(rooms, done)), rooms[name].timer)
         == StopHeld(timers, Among(rooms, done + {name}))
  {
    var was, now := Among(rooms, done), Among(rooms, done + {name});
    assert name in now;
    assert forall n :: n in now <==> n in was || n == name;
  }

  /** The entries picked so far, in the order of their names. */
  ghost predicate Collected(order: seq<string>, list: seq<RoomEntry>, rooms: map<string, RoomEntry>, done: set<string>)
  {
    && EachOnce(order, done) && |list| == |order|
    && forall i :: 0 <= i < |order| ==> order[i] in rooms && list[i] == rooms[order[i]]
  }

  ghost predicate Known(roomOf: map<nat, ManagedRoom>, list: seq<RoomEntry>) {
    forall i :: 0 <= i < |list| ==> list[i].room.id in roomOf && roomOf[list[i].room.id] == list[i].room
  }

  ghost function Ids(list: seq<RoomEntry>): (ids: seq<nat>)
    ensures |ids| == |list|
  {
    seq(|list|, i requires 0 <= i < |list| => list[i].room.id)
  }

  ghost predicate Filed(rooms: map<string, RoomEntry>, entries: map<string, Entry>, roomOf: map<nat, ManagedRoom>) {
    && entries.Keys == rooms.Keys
    && forall n :: n in rooms ==>
         entries[n].room == rooms[n].room.id && rooms[n].room.id in roomOf && roomOf[rooms[n].room.id] == rooms[n].room
  }

  lemma CollectedFiled(rooms: map<string, RoomEntry>, entries: map<string, Entry>, roomOf: map<nat, ManagedRoom>,
                       order: seq<string>, list: seq<RoomEntry>)
    requires Collected(order, list, rooms, rooms.Keys) && Filed(rooms, entries, roomOf)
    ensures Ids(list) == RoomsOf(entries, order) && EachOnce(order, entries.Keys) && Known(roomOf, list)
  {
  }

  ghost function Closes(ids: seq<nat>): seq<Event> {
    seq(|ids|, i requires 0 <= i < |ids| => Close(ids[i]))
  }

  lemma ClosesOne(ids: seq<nat>, i: nat)
    requires i < |ids|
    ensures Closes(ids[i..]) == [Close(ids[i])] + Closes(ids[i + 1..])
    ensures multiset(ids[i..]) == multiset{ids[i]} + multiset(ids[i + 1..])
  {
    assert ids[i..] == [ids[i]] + ids[i + 1..];
  }

  lemma ClosesEnds(ids: seq<nat>)
    ensures ids[0..] == ids && ids[|ids|..] == [] && Closes([]) == []
  {
  }

  lemma MinusMore<V>(m: map<string, V>, done: set<string>, name: string)
    ensures m - done - {name} == m - (done + {name})
  {
  }

  lemma CollectedNone(rooms: map<string, RoomEntry>)
    ensures Collected([], [], rooms, {})
  {
  }

  lemma AmongAll(rooms: map<string, Entry>, names: set<string>)
    requires rooms.Keys <= names
    ensures Among(rooms, names) == rooms
  {
  }

  lemma CollectedMore(order: seq<string>, list: seq<RoomEntry>, rooms: map<string, RoomEntry>,
                      done: set<string>, name: string)
    requires Collected(order, list, rooms, done) && name in rooms && name !in done
    ensures Collected(order + [name], list + [rooms[name]], rooms, done + {name})
  {
  }

  lemma ClaimAllMade(s: State, order: seq<string>)
    ensures Next(s, ClaimAll(order)) == s.(stopped := true, rooms := map[], timers := StopHeld(s.timers, s.rooms),
                                           pending := s.pending + multiset(RoomsOf(s.rooms, order)))
  {
  }

  class Manager {
    var rooms: map<string, RoomEntry>
    var stopped: bool
    ghost var trace: seq<Event>          // every protocol step so far
    ghost var sys: State                 // the protocol state it leads to
    ghost var roomOf: map<nat, ManagedRoom>   // every room ever made
    ghost var timerOf: map<nat, Timer>        // every timer ever made

    ghost function Entries(): map<string, Entry>
      reads this`rooms, rooms.Values
    {
      map n | n in rooms :: rooms[n].Record()
    }

    ghost function Timers(): map<nat, TimerRecord>
      reads this`timerOf, timerOf.Values
    {
      map id | id in timerOf :: timerOf[id].Record()
    }

    ghost function Names(): map<nat, string>
      reads this`roomOf
    {
      map id | id in roomOf :: roomOf[id].name
    }

    ghost predicate StopsAre(closed: multiset<nat>)
      reads this`roomOf, roomOf.Values
    {
      forall id :: id in roomOf ==> roomOf[id].stops == closed[id]
    }

    ghost predicate EntryLinked(n: string, e: RoomEntry)
      reads this`roomOf, this`timerOf, e
    {
      && e.room.name == n && e.room.id in roomOf && roomOf[e.room.id] == e.room
      && (e.reapTimer != null ==> e.reapTimer.id in timerOf && timerOf[e.reapTimer.id] == e.reapTimer)
    }

    /** Identities name objects, and an entry is filed under its room's name. */
    ghost predicate Linked()
      reads this`rooms, this`roomOf, this`timerOf, rooms.Values
    {
      && (forall id :: id in roomOf ==> roomOf[id].id == id)
      && (forall id :: id in timerOf ==> timerOf[id].id == id)
      && (forall n :: n in rooms ==> EntryLinked(n, rooms[n]))
    }

    /** The objects hold exactly what the protocol state says. */
    ghost predicate Shows(s: State)
      reads this, rooms.Values, roomOf.Values, timerOf.Values
    {
      && stopped == s.stopped && Linked()
      && Entries() == s.rooms && Timers() == s.timers && Names() == s.created && StopsAre(s.closed)
    }

    ghost predicate Valid()
      reads this, rooms.Values, roomOf.Values, timerOf.Values
    {
      Shows(sys) && Possible(INIT, trace) && sys == Run(INIT, trace)
    }

    constructor ()
      ensures Valid() && trace == [] && roomOf == map[] && timerOf == map[]
    {
      rooms, stopped := map[], false;
      trace, sys, roomOf, timerOf := [], INIT, map[], map[];
    }

    /** Takes the protocol step that the objects have just made. */
    ghost method Record(e: Event)
      requires Possible(INIT, trace) && sys == Run(INIT, trace) && Enabled(sys, e) && Shows(Next(sys, e))
      modifies this`trace, this`sys
      ensures Valid() && trace == old(trace) + [e] && sys == Next(old(sys), e)
    {
      hide Run;
      hide Next;
      hide Possible;
      Take(trace, e);
      trace, sys := trace + [e], Next(sys, e);
    }

    /** No room is registered once stopped; a registered room was not closed. */
    lemma RegisteredOpen(name: string)
      requires Valid()
      ensures stopped ==> rooms == map[]
      ensures name in rooms ==> rooms[name].room.stops == 0 && rooms[name].room.name == name
    {
      Reachable(trace);
      hide Run;
      if name in rooms {
        assert Entries()[name] == sys.rooms[name];
        assert OnePlace(sys, rooms[name].room.id);
      }
    }

    // -------------------------------------------------------------- getOrCreate

    /** Timer.Stop, seen from the manager. */
    method Halt(t: Timer)
      requires Linked() && t.id in timerOf && timerOf[t.id] == t
      modifies t`state
      ensures Timers() == StopTimer(old(Timers()), Some(t.id))
    {
      t.Stop();
    }

    /** Stops and forgets the timer of an entry. */
    method Disarm(name: string)
      requires Linked() && name in rooms
      modifies rooms[name], rooms[name].reapTimer
      ensures Linked() && rooms[name].reapTimer == null
      ensures Entries() == old(Entries())[name := old(Entries())[name].(timer := None)]
      ensures Timers() == StopTimer(old(Timers()), old(Entries())[name].timer)
    {
      hide Timers;
      hide StopTimer;
      var e := rooms[name];
      ghost var es := Entries();
      if e.reapTimer != null {
        Halt(e.reapTimer);
        e.reapTimer := null;
      } else {
        StopNone(Timers());
      }
      MapSet(es, Entries(), name, e.Record());
    }

    method Reuse(name: string, ghost id: nat)
      requires Valid() && !stopped && name in rooms && id !in sys.created
      modifies this`trace, this`sys, rooms[name], rooms[name].reapTimer
      ensures Valid() && trace == old(trace) + [Ask(name, id)]
      ensures rooms[name].reapTimer == null
    {
      hide Run;
      hide Possible;
      hide Linked;
      hide StopsAre;
      Disarm(name);
      Record(Ask(name, id));
    }

    ghost method Settle(r: ManagedRoom, closed: multiset<nat>)
      requires Linked() && r.id !in roomOf && StopsAre(closed) && r.stops == closed[r.id]
      modifies this`roomOf
      ensures Linked() && StopsAre(closed)
      ensures roomOf == old(roomOf)[r.id := r] && Names() == old(Names())[r.id := r.name]
    {
      roomOf := roomOf[r.id := r];
    }

    /** A new entry, for a new room. */
    method Insert(e: RoomEntry)
      requires Linked() && e.room.name !in rooms && e.reapTimer == null
      requires e.room.id in roomOf && roomOf[e.room.id] == e.room
      modifies this`rooms
      ensures rooms == old(rooms)[e.room.name := e] && Linked()
      ensures Entries() == old(Entries())[e.room.name := Entry(e.room.id, None)]
    {
      rooms := rooms[e.room.name := e];
    }

    lemma NotMade(id: nat)
      requires Valid() && id !in sys.created
      ensures sys.closed[id] == 0 && id !in roomOf
    {
      Reachable(trace);
      assert id !in Names();
      assert OnePlace(sys, id);
    }

    lemma Listed(name: string, id: nat)
      ensures id in timerOf <==> id in Timers()
      ensures name in rooms <==> name in Entries()
      ensures name in rooms ==> Entries()[name].room == rooms[name].room.id
    {
    }

    method Create(name: string, ghost id: nat) returns (r: ManagedRoom)
      requires Valid() && !stopped && name !in rooms && id !in sys.created
      modifies this`trace, this`sys, this`rooms, this`roomOf
      ensures Valid() && trace == old(trace) + [Ask(name, id)]
      ensures fresh(r) && r.name == name && r.stops == 0 && roomOf == old(roomOf)[id := r]
      ensures r.Unused()
      ensures name in rooms && fresh(rooms[name]) && rooms[name].room == r && rooms[name].reapTimer == null
      ensures rooms == old(rooms)[name := rooms[name]]
    {
      hide Run;
      hide Possible;
      hide Linked;
      hide Next;
      hide Entries;
      hide Timers;
      hide Names;
      hide StopsAre;
      hide ManagedRoom.Unused;
      NotMade(id);
      Listed(name, id);
      AskMade(sys, name, id);
      r := new ManagedRoom(name, id);
      var e := new RoomEntry(r);
      Settle(r, sys.closed);
      Insert(e);
      Record(Ask(name, id));
    }

    lemma KnownTimer(name: string)
      requires Linked() && name in rooms
      ensures rooms[name].reapTimer != null ==> rooms[name].reapTimer in timerOf.Values
    {
    }

    lemma StoppedShown(name: string, id: nat)
      requires Valid()
      ensures stopped ==> Next(sys, Ask(name, id)) == sys
    {
    }

    /** A request after shutdown changes nothing. */
    ghost method Refuse(name: string, id: nat)
      requires Valid() && stopped && id !in sys.created
      modifies this`trace, this`sys
      ensures Valid() && trace == old(trace) + [Ask(name, id)]
    {
      StoppedShown(name, id);
      hide Shows;
      Record(Ask(name, id));
    }

    /** `id` is the identity of the room, should one be made. */
    method GetOrCreate(name: string, ghost id: nat) returns (r: ManagedRoom?)
      requires Valid() && id !in sys.created
      modifies this`trace, this`sys, this`rooms, this`roomOf, rooms.Values, timerOf.Values
      ensures Valid() && stopped == old(stopped) && trace == old(trace) + [Ask(name, id)]
      ensures r == null <==> stopped
      ensures stopped ==> rooms == old(rooms) == map[]
      ensures r != null ==> name in rooms && rooms[name].room == r && rooms[name].reapTimer == null
      ensures r != null ==> r.name == name && r.stops == 0
      ensures name in old(rooms) ==> rooms == old(rooms)
      ensures r != null && name !in old(rooms) ==> rooms == old(rooms)[name := rooms[name]] && fresh(r) && r.Unused()
    {
      if name in rooms { KnownTimer(name); }
      RegisteredOpen(name);
      hide *;
      if stopped {
        Refuse(name, id);
        return null;
      }
      if name in rooms {
        Reuse(name, id);
        r := rooms[name].room;
      } else {
        r := Create(name, id);
      }
    }

    // -------------------------------------------------------------- scheduleReap and the timers

    ghost method Enlist(t: Timer)
      requires Linked() && t.id !in timerOf
      modifies this`timerOf
      ensures Linked() && timerOf == old(timerOf)[t.id := t] && Timers() == old(Timers())[t.id := t.Record()]
    {
      timerOf := timerOf[t.id := t];
    }

    /** A new timer, for an entry. */
    method Arm(name: string, t: Timer)
      requires Linked() && name in rooms && t.id !in timerOf
      modifies this`timerOf, rooms[name]
      ensures Linked() && rooms[name].reapTimer == t && timerOf == old(timerOf)[t.id := t]
      ensures Entries() == old(Entries())[name := old(Entries())[name].(timer := Some(t.id))]
      ensures Timers() == old(Timers())[t.id := t.Record()]
    {
      hide Timers;
      var e := rooms[name];
      ghost var es := Entries();
      Enlist(t);
      e.reapTimer := t;
      MapSet(es, Entries(), name, e.Record());
    }

    method Schedule(name: string, ghost from: nat, ghost id: nat)
      requires Valid() && name in rooms && id !in sys.timers && from in sys.created && sys.created[from] == name
      modifies this`trace, this`sys, this`timerOf, rooms[name], rooms[name].reapTimer
      ensures Valid() && trace == old(trace) + [Idle(name, from, id)]
      ensures rooms[name].reapTimer != null && fresh(rooms[name].reapTimer) && rooms[name].reapTimer.state == Armed
    {
      hide Run;
      hide Possible;
      hide Linked;
      hide StopsAre;
      hide Next;
      hide Entries;
      hide StopTimer;
      hide Timers;
      hide Names;
      Listed(name, id);
      hide Reports;
      IdleMade(sys, name, from, id);
      ghost var reports := Reports(sys.timers, sys.rooms[name].timer) + [from];
      Disarm(name);
      var t := new Timer(name, id, rooms[name].room.id, reports);
      Arm(name, t);
      Record(Idle(name, from, id));
    }

    /** The callback of an idle room `from`, which passes on its channel name only; `id` is the
        identity of the new timer. */
    method ScheduleReap(name: string, ghost from: nat, ghost id: nat)
      requires Valid() && id !in sys.timers && from in sys.created && sys.created[from] == name
      modifies this`trace, this`sys, this`timerOf, rooms.Values, timerOf.Values
      ensures Valid() && rooms == old(rooms) && trace == old(trace) + [Idle(name, from, id)]
      ensures name in rooms ==> rooms[name].reapTimer != null && rooms[name].reapTimer.state == Armed
    {
      if name in rooms {
        KnownTimer(name);
        hide Shows;
        hide Run;
        hide Possible;
        Schedule(name, from, id);
      } else {
        assert name !in Entries();
        Record(Idle(name, from, id));
      }
    }

    // -------------------------------------------------------------- reap

    method Enter(t: Timer, state: TimerState)
      requires Linked() && t.id in timerOf && timerOf[t.id] == t
      modifies t
      ensures t.state == state && Linked()
      ensures t.id in old(Timers()) && Timers() == old(Timers())[t.id := old(Timers())[t.id].(state := state)]
    {
      ghost var ts := Timers();
      t.state := state;
      MapSet(ts, Timers(), t.id, t.Record());
    }

    /** The runtime starts the callback of an armed timer. */
    method Fire(t: Timer)
      requires Valid() && t.id in timerOf && timerOf[t.id] == t && t.state.Armed?
      modifies this`trace, this`sys, t
      ensures Valid() && t.state.Due? && trace == old(trace) + [Expire(t.id)]
    {
      hide Run;
      hide Possible;
      Enter(t, Due);
      Record(Expire(t.id));
    }

    /** delete(m.rooms, name) */
    method Withdraw(name: string)
      requires Linked()
      modifies this`rooms
      ensures rooms == old(rooms) - {name} && Linked() && Entries() == old(Entries()) - {name}
    {
      rooms := rooms - {name};
    }

    lemma TimerShown(t: Timer)
      requires Valid() && t.id in timerOf && timerOf[t.id] == t
      ensures t.id in sys.timers && sys.timers[t.id] == t.Record()
    {
    }

    lemma RoomShown(name: string)
      requires Valid()
      ensures name in rooms <==> name in sys.rooms
      ensures name in rooms ==>
                var r := rooms[name].room;
                r in roomOf.Values && r.id in roomOf && roomOf[r.id] == r && sys.rooms[name].room == r.id
    {
    }

    /** The callback's lock region: what is registered under the channel's name is taken out,
        whichever room that is. */
    method ReapClaim(t: Timer) returns (e: RoomEntry?)
      requires Valid() && t.id in timerOf && timerOf[t.id] == t && t.state.Due?
      modifies this`trace, this`sys, this`rooms, t
      ensures Valid() && trace == old(trace) + [Claim(t.id)] && t.state.Spent?
      ensures rooms == old(rooms) - {t.channelName}
      ensures e == if t.channelName in old(rooms) then old(rooms)[t.channelName] else null
      ensures e != null ==> roomOf[e.room.id] == e.room && sys.pending == old(sys.pending) + multiset{e.room.id}
      ensures e == null ==> sys.pending == old(sys.pending)
    {
      hide Run;
      hide Possible;
      hide Next;
      hide Entries;
      hide StopsAre;
      hide Names;
      hide Linked;
      hide Timers;
      var name := t.channelName;
      Listed(name, t.id);
      TimerShown(t);
      RoomShown(name);
      ClaimMade(sys, t.id);
      Enter(t, Spent);
      if name !in rooms {
        Record(Claim(t.id));
        return null;
      }
      e := rooms[name];
      Withdraw(name);
      Record(Claim(t.id));
    }

    /** A claimed room was not closed before. */
    lemma PendingOpen(r: ManagedRoom)
      requires Valid() && r.id in roomOf && roomOf[r.id] == r && r.id in sys.pending
      ensures r.stops == 0
    {
      Reachable(trace);
      assert OnePlace(sys, r.id);
    }

    /** close(e.room.stop), outside the lock. */
    method CloseRoom(r: ManagedRoom)
      requires Valid() && r.id in roomOf && roomOf[r.id] == r && r.id in sys.pending
      modifies this`trace, this`sys, r`stops
      ensures Valid() && trace == old(trace) + [Close(r.id)]
      ensures old(r.stops) == 0 && r.stops == 1 && sys.pending == old(sys.pending) - multiset{r.id}
    {
      hide Run;
      hide Possible;
      PendingOpen(r);
      r.CloseStop();
      Record(Close(r.id));
    }

    method Reap(t: Timer)
      requires Valid() && t.id in timerOf && timerOf[t.id] == t && t.state.Due?
      modifies this`trace, this`sys, this`rooms, t, roomOf.Values
      ensures Valid() && t.state.Spent? && rooms == old(rooms) - {t.channelName}
      ensures t.channelName in old(rooms) ==> old(rooms)[t.channelName].room.stops == 1
      ensures trace == old(trace) + [Claim(t.id)]
                       + if t.channelName in old(rooms) then [Close(old(rooms)[t.channelName].room.id)] else []
    {
      hide Run;
      hide Possible;
      RoomShown(t.channelName);
      var e := ReapClaim(t);
      if e != null {
        CloseRoom(e.room);
      }
    }


    // -------------------------------------------------------------- shutdownAll and viewerCount

    /** One entry on the way to shutdown: its timer is stopped, and it is taken out. */
    method ClaimOne(name: string) returns (e: RoomEntry)
      requires Linked() && name in rooms
      modifies this`rooms, rooms[name].reapTimer
      ensures e == old(rooms[name]) && rooms == old(rooms) - {name} && Linked()
      ensures Entries() == old(Entries()) - {name}
      ensures Timers() == StopTimer(old(Timers()), old(Entries())[name].timer)
    {
      hide Timers;
      hide StopTimer;
      e := rooms[name];
      if e.reapTimer != null {
        Halt(e.reapTimer);
      } else {
        StopNone(Timers());
      }
      Withdraw(name);
    }

    /** Shutdown on its way: the entries of `done` were picked, with their timers stopped. */
    ghost predicate Halfway(was: map<string, RoomEntry>, es: map<string, Entry>, ts: map<nat, TimerRecord>,
                            done: set<string>, order: seq<string>, list: seq<RoomEntry>)
      reads this`rooms, this`roomOf, this`timerOf, rooms.Values, timerOf.Values
    {
      && Linked() && done <= was.Keys == es.Keys && rooms == was - done && Entries() == es - done
      && Collected(order, list, was, done) && Timers() == StopHeld(ts, Among(es, done))
    }

    lemma NoneYet()
      requires Linked()
      ensures Halfway(rooms, Entries(), Timers(), {}, [], [])
    {
      StopHeldNone(Timers(), Entries());
      CollectedNone(rooms);
    }

    method TakeNext(name: string, ghost was: map<string, RoomEntry>, ghost es: map<string, Entry>,
                    ghost ts: map<nat, TimerRecord>, ghost done: set<string>, ghost order: seq<string>,
                    list: seq<RoomEntry>)
      returns (e: RoomEntry)
      requires Halfway(was, es, ts, done, order, list) && name in rooms
      modifies this`rooms, timerOf.Values
      ensures rooms == old(rooms) - {name} && Halfway(was, es, ts, done + {name}, order + [name], list + [e])
    {
      hide Timers;
      hide Entries;
      hide Linked;
      hide Collected;
      hide StopHeld;
      hide StopTimer;
      hide Among;
      KnownTimer(name);
      e := ClaimOne(name);
      assert e == was[name];
      StopHeldMore(ts, es, done, name);
      CollectedMore(order, list, was, done, name);
      MinusMore(was, done, name);
      MinusMore(es, done, name);
    }

    lemma AllTaken(was: map<string, RoomEntry>, es: map<string, Entry>, ts: map<nat, TimerRecord>,
                   done: set<string>, order: seq<string>, list: seq<RoomEntry>)
      requires Halfway(was, es, ts, done, order, list) && rooms == map[]
      ensures Linked() && Entries() == map[] && Collected(order, list, was, was.Keys) && Timers() == StopHeld(ts, es)
    {
      hide StopHeld;
      hide Collected;
      assert forall n :: n in was && n !in done ==> n in was - done;
      assert done == was.Keys;
      AmongAll(es, done);
    }

    /** The loop under the lock of shutdownAll, whatever the order of the entries. */
    method TakeAll() returns (list: seq<RoomEntry>, ghost order: seq<string>)
      requires Linked()
      modifies this`rooms, timerOf.Values
      ensures Linked() && rooms == map[] && Entries() == map[]
      ensures Collected(order, list, old(rooms), old(rooms).Keys)
      ensures Timers() == StopHeld(old(Timers()), old(Entries()))
    {
      list, order := [], [];
      ghost var was, es, ts, done := rooms, Entries(), Timers(), {};
      NoneYet();
      hide *;
      while rooms != map[]
        invariant Halfway(was, es, ts, done, order, list)
        decreases |rooms|
      {
        var name :| name in rooms;
        var e := TakeNext(name, was, es, ts, done, order, list);
        list, order, done := list + [e], order + [name], done + {name};
      }
      AllTaken(was, es, ts, done, order, list);
    }

    lemma AllFiled()
      requires Linked()
      ensures Filed(rooms, Entries(), roomOf)
    {
    }

    /** Each entry with its timer, as recorded. */
    ghost predicate Recorded(entries: map<string, RoomEntry>, es: map<string, Entry>)
      reads this`timerOf, entries.Values
    {
      forall n :: n in entries ==>
        && n in es && entries[n].Record() == es[n]
        && var t := entries[n].reapTimer; t != null ==> t.id in timerOf && timerOf[t.id] == t
    }

    lemma AllRecorded()
      requires Linked()
      ensures Recorded(rooms, Entries())
    {
    }

    lemma HeldHalted(entries: map<string, RoomEntry>, es: map<string, Entry>, ts: map<nat, TimerRecord>, n: string)
      requires Recorded(entries, es) && Timers() == StopHeld(ts, es) && n in entries && entries[n].reapTimer != null
      ensures !entries[n].reapTimer.state.Armed?
    {
      var id := entries[n].reapTimer.id;
      assert es[n].timer == Some(id);
      assert Held(es, id);
      assert id in Timers() && Timers()[id].state == timerOf[id].state;
    }

    /** None of the entries' timers is armed. */
    ghost predicate Halts(entries: map<string, RoomEntry>)
      reads entries.Values, set e | e in entries.Values :: e.reapTimer
    {
      forall n :: n in entries ==> var t := entries[n].reapTimer; t != null ==> !t.state.Armed?
    }

    lemma AllHalted(entries: map<string, RoomEntry>, es: map<string, Entry>, ts: map<nat, TimerRecord>)
      requires Recorded(entries, es) && Timers() == StopHeld(ts, es)
      ensures Halts(entries)
    {
      hide Recorded;
      hide StopHeld;
      hide Timers;
      forall n | n in entries && entries[n].reapTimer != null ensures !entries[n].reapTimer.state.Armed? {
        HeldHalted(entries, es, ts, n);
      }
    }

    /** The lock region of shutdownAll. */
    method ClaimAllRooms() returns (list: seq<RoomEntry>, ghost order: seq<string>)
      requires Valid()
      modifies this`trace, this`sys, this`rooms, this`stopped, timerOf.Values
      ensures Valid() && stopped && rooms == map[] && trace == old(trace) + [ClaimAll(order)]
      ensures Collected(order, list, old(rooms), old(rooms).Keys)
      ensures Ids(list) == RoomsOf(old(Entries()), order)
      ensures Known(roomOf, list) && sys.pending == old(sys.pending) + multiset(Ids(list))
      ensures Halts(old(rooms))
    {
      hide Recorded;
      hide Halts;
      hide Run;
      hide Possible;
      hide Next;
      hide StopHeld;
      hide Entries;
      hide Linked;
      hide Timers;
      hide Names;
      hide StopsAre;
      hide Collected;
      AllFiled();
      AllRecorded();
      ghost var was, es, ts := rooms, Entries(), Timers();
      stopped := true;
      list, order := TakeAll();
      AllHalted(was, es, ts);
      CollectedFiled(was, es, roomOf, order, list);
      ClaimAllMade(sys, order);
      Record(ClaimAll(order));
    }

    /** One turn of the loop after the lock was given back. */
    method CloseNext(list: seq<RoomEntry>, i: nat, ghost others: multiset<nat>)
      requires Valid() && Known(roomOf, list) && i < |list| && sys.pending == others + multiset(Ids(list)[i..])
      modifies this`trace, this`sys, list[i].room`stops
      ensures Valid() && sys.pending == others + multiset(Ids(list)[i + 1..])
      ensures trace + Closes(Ids(list)[i + 1..]) == old(trace) + Closes(Ids(list)[i..])
      ensures old(list[i].room.stops) == 0 && list[i].room.stops == 1
    {
      hide Run;
      hide Possible;
      hide Shows;
      hide Next;
      ClosesOne(Ids(list), i);
      CloseRoom(list[i].room);
    }

    method CloseAll(list: seq<RoomEntry>, ghost others: multiset<nat>)
      requires Valid() && Known(roomOf, list) && sys.pending == others + multiset(Ids(list))
      modifies this`trace, this`sys, roomOf.Values
      ensures Valid() && sys.pending == others && trace == old(trace) + Closes(Ids(list))
      ensures forall i :: 0 <= i < |list| ==> list[i].room.stops == 1
    {
      hide Valid;
      hide Closes;
      hide Ids;
      ClosesEnds(Ids(list));
      for i := 0 to |list|
        invariant Valid() && sys.pending == others + multiset(Ids(list)[i..])
        invariant trace + Closes(Ids(list)[i..]) == old(trace) + Closes(Ids(list))
        invariant forall j :: 0 <= j < i ==> list[j].room.stops == 1
      {
        CloseNext(list, i, others);
      }
    }

    lemma AllStopped()
      requires Valid() && rooms == map[] && sys.pending == multiset{}
      ensures forall id :: id in roomOf ==> roomOf[id].stops == 1
    {
      Reachable(trace);
      forall id | id in roomOf
        ensures roomOf[id].stops == 1
      {
        assert id in Names() && OnePlace(sys, id);
        assert Entries() == map[];
      }
    }

    /** Nothing is registered afterwards, and the rooms that were are stopped once each; if no
        other claim was under way, so is every room ever made. */
    method ShutdownAll() returns (ghost order: seq<string>)
      requires Valid()
      modifies this`trace, this`sys, this`rooms, this`stopped, timerOf.Values, roomOf.Values
      ensures Valid() && stopped && rooms == map[]
      ensures forall n :: n in old(rooms) ==> old(rooms)[n].room.stops == 1
      ensures sys.pending == old(sys.pending)
      ensures sys.pending == multiset{} ==> forall id :: id in roomOf ==> roomOf[id].stops == 1
      ensures Halts(old(rooms))
      ensures EachOnce(order, old(rooms).Keys)
      ensures trace == old(trace) + [ClaimAll(order)] + Closes(RoomsOf(old(Entries()), order))
    {
      hide Shows;
      hide Run;
      hide Possible;
      hide Next;
      ghost var others := sys.pending;
      var list;
      list, order := ClaimAllRooms();
      CloseAll(list, others);
      if others == multiset{} { AllStopped(); }
    }

    /** Nobody for a name that is not registered. For a room that its goroutine runs, never fewer
        than the distinct viewers, and as many exactly when no viewer was lost since the last
        publish. */
    method ViewerCount(name: string) returns (n: int)
      ensures name !in rooms ==> n == 0
      ensures name in rooms && rooms[name].room.actor.Living() ==>
                var actor := rooms[name].room.actor;
                n >= actor.Distinct() && (n == actor.Distinct() <==> RoomCount.AllRepublished(actor.life))
    {
      if name !in rooms {
        return 0;
      }
      n := rooms[name].room.actor.room.viewerCount;
      if rooms[name].room.actor.Living() { rooms[name].room.actor.CountRead(); }
    }
  }
}
