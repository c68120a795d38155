/** The lifecycle of a process's chat rooms as a step relation: each lock region of the manager,
    each timer expiry and each close of a stop channel is one atomic step. A callback that is due
    no longer minds being stopped, and rooms are closed outside the lock. */
module ManagerProtocol {
  import opened Collections

  datatype TimerState = Armed | Cancelled | Due | Spent

  /** `room` is the room registered when the timer was made. `reports` are the rooms whose reports
      made it and the timers that it replaced, since the entry last had none. */
  datatype TimerRecord = TimerRecord(name: string, room: nat, reports: seq<nat>, state: TimerState) {
    /** The room whose report made this timer. */
    function By(): nat {
      if reports == [] then room else reports[|reports| - 1]
    }
  }

  datatype Entry = Entry(room: nat, timer: Option<nat>)

  /** `pending` are the closes still to be made by whoever claimed the rooms, `closed` those that
      were made. */
  datatype State = State(
    rooms: map<string, Entry>,
    stopped: bool,
    created: map<nat, string>,
    timers: map<nat, TimerRecord>,
    pending: multiset<nat>,
    closed: multiset<nat>)

  const INIT := State(map[], false, map[], map[], multiset{}, multiset{})

  /** `id` is the identity of the room or timer made, when one is. Room `from` may report itself
      idle at any time, also after it was claimed; all that it passes on is its name. */
  datatype Event =
    | Ask(name: string, id: nat)
    | Idle(name: string, from: nat, id: nat)
    | Expire(id: nat)
    | Claim(id: nat)
    | ClaimAll(order: seq<string>)
    | Close(room: nat)

  ghost predicate Enabled(s: State, e: Event) {
    match e
    case Ask(_, id) => id !in s.created
    case Idle(name, from, id) => id !in s.timers && from in s.created && s.created[from] == name
    case Expire(id) => id in s.timers && s.timers[id].state.Armed?
    case Claim(id) => id in s.timers && s.timers[id].state.Due?
    case ClaimAll(order) => EachOnce(order, s.rooms.Keys)
    case Close(room) => room in s.pending
  }

  /** Timer.Stop */
  function Halted(t: TimerRecord): TimerRecord {
    if t.state.Armed? then t.(state := Cancelled) else t
  }

  predicate Held(rooms: map<string, Entry>, id: nat) {
    exists n :: n in rooms && rooms[n].timer == Some(id)
  }

  /** The timers, once those that the entry holds or the entries hold are stopped. */
  function StopTimer(timers: map<nat, TimerRecord>, t: Option<nat>): map<nat, TimerRecord> {
    map id | id in timers :: if t == Some(id) then Halted(timers[id]) else timers[id]
  }

  /** The reports behind the timer that an entry holds. */
  function Reports(timers: map<nat, TimerRecord>, t: Option<nat>): seq<nat> {
    if t.Some? && t.value in timers then timers[t.value].reports else []
  }

  function StopHeld(timers: map<nat, TimerRecord>, rooms: map<string, Entry>): map<nat, TimerRecord> {
    map id | id in timers :: if Held(rooms, id) then Halted(timers[id]) else timers[id]
  }

  function RoomsOf(rooms: map<string, Entry>, order: seq<string>): seq<nat> {
    seq(|order|, i requires 0 <= i < |order| => if order[i] in rooms then rooms[order[i]].room else 0)
  }

  function Next(s: State, e: Event): State {
    match e
    case Ask(name, id) =>
      if s.stopped then s
      else if name in s.rooms then
        var entry := s.rooms[name];
        s.(rooms := s.rooms[name := entry.(timer := None)],
           timers := StopTimer(s.timers, entry.timer))
      else s.(rooms := s.rooms[name := Entry(id, None)], created := s.created[id := name])
    case Idle(name, from, id) =>
      if name !in s.rooms then s
      else
        var entry := s.rooms[name];
        s.(rooms := s.rooms[name := entry.(timer := Some(id))],
           timers := StopTimer(s.timers, entry.timer)
                       [id := TimerRecord(name, entry.room, Reports(s.timers, entry.timer) + [from], Armed)])
    case Expire(id) =>
      if id !in s.timers then s
      else s.(timers := s.timers[id := s.timers[id].(state := Due)])
    case Claim(id) =>
      if id !in s.timers then s
      else
        var name, ran := s.timers[id].name, s.timers[id := s.timers[id].(state := Spent)];
        if name !in s.rooms then s.(timers := ran)
        else s.(timers := ran, rooms := s.rooms - {name}, pending := s.pending + multiset{s.rooms[name].room})
    case ClaimAll(order) =>
      s.(stopped := true, rooms := map[], timers := StopHeld(s.timers, s.rooms),
         pending := s.pending + multiset(RoomsOf(s.rooms, order)))
    case Close(room) => s.(pending := s.pending - multiset{room}, closed := s.closed + multiset{room})
  }

  function Run(s: State, es: seq<Event>): State {
    if es == [] then s else Next(Run(s, es[..|es| - 1]), es[|es| - 1])
  }

  ghost predicate Possible(s: State, es: seq<Event>) {
    es == [] || (Possible(s, es[..|es| - 1]) && Enabled(Run(s, es[..|es| - 1]), es[|es| - 1]))
  }

  lemma Take(es: seq<Event>, e: Event)
    requires Possible(INIT, es) && Enabled(Run(INIT, es), e)
    ensures Possible(INIT, es + [e]) && Run(INIT, es + [e]) == Next(Run(INIT, es), e)
  {
    assert (es + [e])[..|es|] == es;
  }

  // ---------------------------------------------------------------- the invariant

  predicate Registered(s: State, r: nat) {
    r in s.created && s.created[r] in s.rooms && s.rooms[s.created[r]].room == r
  }

  /** How often a room is registered, waits to be closed, or was closed: once in all. */
  ghost predicate OnePlace(s: State, r: nat) {
    (if Registered(s, r) then 1 else 0) + s.pending[r] + s.closed[r] == if r in s.created then 1 else 0
  }

  ghost predicate Inv(s: State) {
    && (forall n :: n in s.rooms ==> s.rooms[n].room in s.created && s.created[s.rooms[n].room] == n)
    && (s.stopped ==> s.rooms == map[])
    && (forall r: nat :: OnePlace(s, r))
  }

  /** An entry's timer is its room's. */
  ghost predicate HeldFit(s: State) {
    forall n :: n in s.rooms && s.rooms[n].timer.Some? ==>
      var id := s.rooms[n].timer.value;
      && id in s.timers && s.timers[id].name == n && s.timers[id].room == s.rooms[n].room
      && (s.timers[id].state.Armed? || s.timers[id].state.Due?)
  }

  /** It is the only one armed for that room. */
  ghost predicate ArmedHeld(s: State) {
    forall id :: id in s.timers && s.timers[id].state.Armed? && Registered(s, s.timers[id].room) ==>
      s.rooms[s.created[s.timers[id].room]].timer == Some(id)
  }

  ghost predicate Named(created: map<nat, string>, t: TimerRecord) {
    && t.room in created && created[t.room] == t.name
    && t.reports != [] && forall r :: r in t.reports ==> r in created && created[r] == t.name
  }

  /** A timer's rooms all bear its name. */
  ghost predicate TimersNamed(s: State) {
    forall id :: id in s.timers ==> Named(s.created, s.timers[id])
  }

  ghost predicate TimersInv(s: State) {
    HeldFit(s) && ArmedHeld(s) && TimersNamed(s)
  }

  lemma {:induction false} CountOnce(rooms: map<string, Entry>, order: seq<string>, r: nat, home: string)
    requires forall i, j :: 0 <= i < j < |order| ==> order[i] != order[j]
    requires forall n :: n in order ==> n in rooms && (rooms[n].room == r ==> n == home)
    ensures multiset(RoomsOf(rooms, order))[r] == if home in order && rooms[home].room == r then 1 else 0
  {
    if order == [] {
      assert RoomsOf(rooms, order) == [];
    } else {
      var k := |order| - 1;
      assert order == order[..k] + [order[k]];
      assert RoomsOf(rooms, order) == RoomsOf(rooms, order[..k]) + [rooms[order[k]].room];
      CountOnce(rooms, order[..k], r, home);
    }
  }

  lemma ShutdownClaims(s: State, order: seq<string>, r: nat)
    requires Inv(s) && EachOnce(order, s.rooms.Keys)
    ensures multiset(RoomsOf(s.rooms, order))[r] == if Registered(s, r) then 1 else 0
  {
    if r in s.created {
      CountOnce(s.rooms, order, r, s.created[r]);
    } else {
      CountOnce(s.rooms, order, r, "");
    }
  }

  lemma ShutdownKeepsInv(s: State, order: seq<string>)
    requires Inv(s) && EachOnce(order, s.rooms.Keys)
    ensures Inv(Next(s, ClaimAll(order)))
  {
    hide RoomsOf;
    forall r: nat ensures OnePlace(Next(s, ClaimAll(order)), r) {
      assert OnePlace(s, r);
      ShutdownClaims(s, order, r);
    }
  }

  lemma AskKeepsInv(s: State, name: string, id: nat)
    requires Inv(s) && id !in s.created
    ensures Inv(Next(s, Ask(name, id)))
  {
    hide StopTimer;
    forall r: nat ensures OnePlace(Next(s, Ask(name, id)), r) { assert OnePlace(s, r); }
  }

  lemma ReapKeepsInv(s: State, id: nat)
    requires Inv(s) && Enabled(s, Claim(id))
    ensures Inv(Next(s, Claim(id)))
  {
    forall r: nat ensures OnePlace(Next(s, Claim(id)), r) { assert OnePlace(s, r); }
  }

  lemma ReportKeepsInv(s: State, name: string, from: nat, id: nat)
    requires Inv(s)
    ensures Inv(Next(s, Idle(name, from, id)))
  {
    hide StopTimer;
    hide Reports;
    var t := Next(s, Idle(name, from, id));
    forall r: nat ensures OnePlace(t, r) { assert OnePlace(s, r); }
  }

  lemma OtherKeepsInv(s: State, e: Event)
    requires Inv(s) && Enabled(s, e) && (e.Expire? || e.Close?)
    ensures Inv(Next(s, e))
  {
    forall r: nat ensures OnePlace(Next(s, e), r) { assert OnePlace(s, r); }
  }

  lemma StepKeepsInv(s: State, e: Event)
    requires Inv(s) && Enabled(s, e)
    ensures Inv(Next(s, e))
  {
    hide Inv;
    hide Next;
    match e
    case Ask(name, id) => AskKeepsInv(s, name, id);
    case Claim(id) => ReapKeepsInv(s, id);
    case ClaimAll(order) => ShutdownKeepsInv(s, order);
    case Idle(name, from, id) => ReportKeepsInv(s, name, from, id);
    case _ => OtherKeepsInv(s, e);
  }

  lemma ReuseKeepsTimers(s: State, name: string)
    requires Inv(s) && TimersInv(s) && name in s.rooms
    ensures var e := s.rooms[name];
            TimersInv(s.(rooms := s.rooms[name := e.(timer := None)], timers := StopTimer(s.timers, e.timer)))
  {
    hide OnePlace;
  }

  lemma AskKeepsTimers(s: State, name: string, id: nat)
    requires Inv(s) && TimersInv(s) && id !in s.created
    ensures TimersInv(Next(s, Ask(name, id)))
  {
    hide OnePlace;
    if name in s.rooms && !s.stopped {
      ReuseKeepsTimers(s, name);
    }
  }

  /** The reports behind a new timer are of rooms of the same name. */
  lemma ReportsNamed(s: State, name: string, from: nat)
    requires Inv(s) && HeldFit(s) && TimersNamed(s) && name in s.rooms && from in s.created && s.created[from] == name
    ensures var e := s.rooms[name];
            Named(s.created, TimerRecord(name, e.room, Reports(s.timers, e.timer) + [from], Armed))
  {
    hide OnePlace;
    var e := s.rooms[name];
    if e.timer.Some? { assert Named(s.created, s.timers[e.timer.value]); }
  }

  lemma ScheduleKeepsNames(s: State, name: string, from: nat, id: nat)
    requires Inv(s) && HeldFit(s) && TimersNamed(s) && Enabled(s, Idle(name, from, id))
    ensures TimersNamed(Next(s, Idle(name, from, id)))
  {
    hide Inv;
    hide Reports;
    if name in s.rooms { ReportsNamed(s, name, from); }
  }

  lemma ScheduleKeepsHeld(s: State, name: string, from: nat, id: nat)
    requires Inv(s) && TimersInv(s) && Enabled(s, Idle(name, from, id))
    ensures HeldFit(Next(s, Idle(name, from, id))) && ArmedHeld(Next(s, Idle(name, from, id)))
  {
    hide OnePlace;
    hide Reports;
  }

  lemma ScheduleKeepsTimers(s: State, name: string, from: nat, id: nat)
    requires Inv(s) && TimersInv(s) && Enabled(s, Idle(name, from, id))
    ensures TimersInv(Next(s, Idle(name, from, id)))
  {
    hide Next;
    hide Inv;
    ScheduleKeepsNames(s, name, from, id);
    ScheduleKeepsHeld(s, name, from, id);
  }

  lemma ReapKeepsTimers(s: State, id: nat)
    requires Inv(s) && TimersInv(s) && Enabled(s, Claim(id))
    ensures TimersInv(Next(s, Claim(id)))
  {
    hide OnePlace;
  }

  lemma ShutdownKeepsTimers(s: State, order: seq<string>)
    requires TimersInv(s)
    ensures TimersInv(Next(s, ClaimAll(order)))
  {
    hide RoomsOf;
    hide Held;
  }

  lemma OtherKeepsTimers(s: State, e: Event)
    requires TimersInv(s) && Enabled(s, e) && (e.Expire? || e.Close?)
    ensures TimersInv(Next(s, e))
  {
  }

  lemma StepKeepsTimers(s: State, e: Event)
    requires Inv(s) && TimersInv(s) && Enabled(s, e)
    ensures TimersInv(Next(s, e))
  {
    hide Inv;
    hide TimersInv;
    match e
    case Ask(name, id) => AskKeepsTimers(s, name, id);
    case Idle(name, from, id) => ScheduleKeepsTimers(s, name, from, id);
    case Claim(id) => ReapKeepsTimers(s, id);
    case ClaimAll(order) => ShutdownKeepsTimers(s, order);
    case _ => OtherKeepsTimers(s, e);
  }

  lemma {:induction false} Reachable(es: seq<Event>)
    requires Possible(INIT, es)
    ensures Inv(Run(INIT, es)) && TimersInv(Run(INIT, es))
  {
    if es != [] {
      var front := es[..|es| - 1];
      Reachable(front);
      StepKeepsInv(Run(INIT, front), es[|es| - 1]);
      StepKeepsTimers(Run(INIT, front), es[|es| - 1]);
    }
  }

  // ---------------------------------------------------------------- every run

  /** Every room ever made is registered under exactly its own name, or waits to be closed, or
      was closed once; a room not made is none of these. */
  lemma OneLife(es: seq<Event>, r: nat)
    requires Possible(INIT, es)
    ensures var s := Run(INIT, es);
            && (r in s.created
                <==> (exists n :: n in s.rooms && s.rooms[n].room == r) || r in s.pending || r in s.closed)
            && (forall n :: n in s.rooms && s.rooms[n].room == r ==>
                  r !in s.pending && r !in s.closed && s.created[r] == n)
            && (r in s.pending ==> r !in s.closed)
            && s.pending[r] <= 1 && s.closed[r] <= 1
  {
    Reachable(es);
    hide Run;
    var s := Run(INIT, es);
    assert OnePlace(s, r);
  }

  /** close(stop) never panics: the channel of a claimed room was not closed before. */
  lemma CloseOnce(es: seq<Event>, r: nat)
    requires Possible(INIT, es) && Enabled(Run(INIT, es), Close(r))
    ensures Run(INIT, es).closed[r] == 0
  {
    OneLife(es, r);
  }

  lemma {:induction false} StoppedStays(s: State, more: seq<Event>)
    requires s.stopped && s.rooms == map[]
    ensures var t := Run(s, more); t.stopped && t.rooms == map[] && t.created == s.created
  {
    if more != [] {
      StoppedStays(s, more[..|more| - 1]);
    }
  }

  lemma {:induction false} RunJoin(s: State, es: seq<Event>, more: seq<Event>)
    ensures Run(s, es + more) == Run(Run(s, es), more)
    decreases |more|
  {
    if more == [] {
      assert es + more == es;
    } else {
      assert (es + more)[..|es + more| - 1] == es + more[..|more| - 1];
      RunJoin(s, es, more[..|more| - 1]);
    }
  }

  lemma AllClosed(s: State)
    requires Inv(s) && s.rooms == map[]
    ensures s.pending == multiset{} <==> s.closed == multiset(s.created.Keys)
  {
    var all := multiset(s.created.Keys);
    forall r: nat ensures s.pending[r] + s.closed[r] == all[r] {
      assert OnePlace(s, r);
    }
    if s.closed == all {
      assert forall r :: s.pending[r] == 0;
    }
    if s.pending == multiset{} {
      assert forall r :: s.closed[r] == all[r];
    }
  }

  /** Shutdown leaves no timer armed for a room that was registered. */
  lemma ShutdownDisarms(es: seq<Event>, order: seq<string>, id: nat)
    requires Possible(INIT, es) && Enabled(Run(INIT, es), ClaimAll(order))
    ensures var s, t := Run(INIT, es), Next(Run(INIT, es), ClaimAll(order));
            id in s.timers && Registered(s, s.timers[id].room) ==> id in t.timers && !t.timers[id].state.Armed?
  {
    Reachable(es);
    hide Run;
    var s := Run(INIT, es);
    if id in s.timers && s.timers[id].state.Armed? && Registered(s, s.timers[id].room) {
      assert Held(s.rooms, id);
    }
  }

  /** After shutdown, whatever callbacks still run, no room is registered and none is made; and
      once nobody has a close left to make, every room ever made was closed exactly once. */
  lemma ShutdownFinal(es: seq<Event>, more: seq<Event>)
    requires Possible(INIT, es + more) && Possible(INIT, es) && Run(INIT, es).stopped
    ensures var s, t := Run(INIT, es), Run(INIT, es + more);
            && t.stopped && t.rooms == map[] && t.created == s.created
            && (t.pending == multiset{} <==> t.closed == multiset(t.created.Keys))
  {
    Reachable(es);
    Reachable(es + more);
    RunJoin(INIT, es, more);
    StoppedStays(Run(INIT, es), more);
    hide Run;
    AllClosed(Run(INIT, es + more));
  }

  /** A callback takes the room that its timer was made for exactly when that room is still
      registered; otherwise it takes a successor of the same name. */
  lemma ReapTakesOwn(es: seq<Event>, id: nat)
    requires Possible(INIT, es) && Enabled(Run(INIT, es), Claim(id))
    requires Run(INIT, es).timers[id].name in Run(INIT, es).rooms
    ensures var s := Run(INIT, es);
            var own, taken := s.timers[id].room, s.rooms[s.timers[id].name].room;
            && (taken == own <==> Registered(s, own))
            && (taken != own ==> s.pending[own] + s.closed[own] == 1)
  {
    Reachable(es);
    hide Run;
    var s := Run(INIT, es);
    assert OnePlace(s, s.timers[id].room);
  }

  lemma SpentStays(s: State, e: Event, id: nat)
    requires Enabled(s, e) && id in s.timers && s.timers[id].state.Spent?
    ensures id in Next(s, e).timers && Next(s, e).timers[id].state.Spent?
  {
    hide RoomsOf;
    hide Reports;
  }

  lemma ClaimSpends(s: State, id: nat)
    requires Enabled(s, Claim(id))
    ensures id in Next(s, Claim(id)).timers && Next(s, Claim(id)).timers[id].state.Spent?
  {
  }

  /** A callback runs once: afterwards its timer is neither armed nor due again. */
  lemma {:induction false} CallbackOnce(es: seq<Event>, id: nat)
    requires Possible(INIT, es) && Claim(id) in es
    ensures id in Run(INIT, es).timers && Run(INIT, es).timers[id].state.Spent?
    ensures !Enabled(Run(INIT, es), Claim(id)) && !Enabled(Run(INIT, es), Expire(id))
  {
    var front, e := es[..|es| - 1], es[|es| - 1];
    assert es == front + [e];
    hide Next;
    if Claim(id) in front {
      CallbackOnce(front, id);
      SpentStays(Run(INIT, front), e, id);
    } else {
      ClaimSpends(Run(INIT, front), id);
    }
  }

  // ---------------------------------------------------------------- rooms that are wanted

  /** The room that a request gets. */
  function Given(s: State, name: string, id: nat): nat {
    if name in s.rooms then s.rooms[name].room else id
  }

  /** Event `i` is a request that was given room `r`. */
  ghost predicate Gives(es: seq<Event>, i: nat, r: nat)
    requires i < |es|
  {
    es[i].Ask? && !Run(INIT, es[..i]).stopped && Given(Run(INIT, es[..i]), es[i].name, es[i].id) == r
  }

  predicate OwnReport(e: Event, r: nat) {
    e.Idle? && e.from == r
  }

  /** Room `r` was given to somebody at event `i` and has not reported itself idle since. */
  ghost predicate WantedSince(es: seq<Event>, i: nat, r: nat)
    requires i < |es|
  {
    Gives(es, i, r) && forall k :: i < k < |es| ==> !OwnReport(es[k], r)
  }

  ghost predicate Wanted(es: seq<Event>, r: nat) {
    exists i: nat :: i < |es| && WantedSince(es, i, r)
  }

  lemma GivesFront(es: seq<Event>, i: nat, r: nat)
    requires i + 1 < |es|
    ensures Gives(es[..|es| - 1], i, r) == Gives(es, i, r)
  {
    assert es[..|es| - 1][..i] == es[..i];
  }

  lemma WantedStep(es: seq<Event>, r: nat)
    requires es != []
    ensures var n := |es| - 1;
            Wanted(es, r) <==> Gives(es, n, r) || (Wanted(es[..n], r) && !OwnReport(es[n], r))
  {
    hide Gives;
    var n := |es| - 1;
    if Gives(es, n, r) {
      assert WantedSince(es, n, r);
    }
    if Wanted(es[..n], r) && !OwnReport(es[n], r) {
      var i: nat :| i < n && WantedSince(es[..n], i, r);
      GivesFront(es, i, r);
      assert WantedSince(es, i, r);
    }
    if i: nat :| i < |es| && WantedSince(es, i, r) && i < n {
      GivesFront(es, i, r);
      assert WantedSince(es[..n], i, r);
    }
  }

  /** The entry's timer says whether its room is wanted: it has none, or none of the reports behind
      it is the room's own. */
  predicate LooksWanted(s: State, n: string)
    requires n in s.rooms
  {
    s.rooms[n].room !in Reports(s.timers, s.rooms[n].timer)
  }

  lemma AskLooks(s: State, name: string, id: nat, n: string)
    requires Inv(s) && TimersInv(s) && id !in s.created && !s.stopped
    requires n in Next(s, Ask(name, id)).rooms
    ensures var t := Next(s, Ask(name, id));
            && t.rooms[name].room == Given(s, name, id)
            && (n == name ==> LooksWanted(t, n))
            && (n != name ==> n in s.rooms && t.rooms[n].room == s.rooms[n].room != Given(s, name, id)
                              && (LooksWanted(t, n) <==> LooksWanted(s, n)))
  {
    hide OnePlace;
  }

  lemma ReportLooks(s: State, name: string, from: nat, id: nat, n: string)
    requires Inv(s) && TimersInv(s) && Enabled(s, Idle(name, from, id)) && n in s.rooms
    ensures var t := Next(s, Idle(name, from, id));
            && n in t.rooms && t.rooms[n].room == s.rooms[n].room
            && (LooksWanted(t, n) <==> LooksWanted(s, n) && from != s.rooms[n].room)
  {
    hide OnePlace;
  }

  lemma OtherLooks(s: State, e: Event, n: string)
    requires TimersInv(s) && Enabled(s, e) && !e.Ask? && !e.Idle? && n in Next(s, e).rooms
    ensures var t := Next(s, e);
            n in s.rooms && t.rooms[n].room == s.rooms[n].room && (LooksWanted(t, n) <==> LooksWanted(s, n))
  {
  }

  lemma IdleKeepsNames(s: State, e: Event)
    requires e.Idle?
    ensures Next(s, e).rooms.Keys == s.rooms.Keys
  {
  }

  lemma AskStopped(s: State, e: Event)
    requires e.Ask? && s.stopped
    ensures Next(s, e) == s
  {
  }

  /** Whether a registered room is wanted can be read off its entry, in every run. */
  lemma {:induction false} WantedExactly(es: seq<Event>, n: string)
    requires Possible(INIT, es) && n in Run(INIT, es).rooms
    ensures Wanted(es, Run(INIT, es).rooms[n].room) <==> LooksWanted(Run(INIT, es), n)
  {
    if es != [] {
      var last := |es| - 1;
      var s, e := Run(INIT, es[..last]), es[last];
      Reachable(es[..last]);
      WantedStep(es, Run(INIT, es).rooms[n].room);
      hide Wanted;
      hide Inv;
      hide TimersInv;
      hide LooksWanted;
      hide Next;
      assert Run(INIT, es) == Next(s, e);
      if e.Ask? && !s.stopped {
        AskLooks(s, e.name, e.id, n);
      } else if e.Idle? {
        IdleKeepsNames(s, e);
        ReportLooks(s, e.name, e.from, e.id, n);
      } else if e.Ask? {
        AskStopped(s, e);
      } else {
        OtherLooks(s, e, n);
      }
      if n in s.rooms { WantedExactly(es[..last], n); }
    }
  }

  /** reap does not look at reapTimer: it takes away a wanted room exactly when that field is nil or
      the room's own report is not among those that set it. */
  lemma ReapTakesWanted(es: seq<Event>, id: nat)
    requires Possible(INIT, es) && Enabled(Run(INIT, es), Claim(id))
    requires Run(INIT, es).timers[id].name in Run(INIT, es).rooms
    ensures var s := Run(INIT, es);
            var entry := s.rooms[s.timers[id].name];
            && Next(s, Claim(id)).pending == s.pending + multiset{entry.room}
            && (Wanted(es, entry.room) <==>
                  entry.timer.None?
                  || (entry.timer.value in s.timers && entry.room !in s.timers[entry.timer.value].reports))
  {
    Reachable(es);
    WantedExactly(es, Run(INIT, es).timers[id].name);
  }

  // ---------------------------------------------------------------- how wanted rooms are lost

  /** Asking for a room leaves no timer armed that was made for it. */
  lemma AskDisarms(es: seq<Event>, name: string, id: nat, t: nat)
    requires Possible(INIT, es) && id !in Run(INIT, es).created && !Run(INIT, es).stopped
    ensures var s := Next(Run(INIT, es), Ask(name, id));
            && name in s.rooms && s.rooms[name].room == Given(Run(INIT, es), name, id)
            && (t in s.timers && s.timers[t].room == s.rooms[name].room ==> !s.timers[t].state.Armed?)
  {
    Reachable(es);
    hide Run;
    var s := Run(INIT, es);
    StepKeepsInv(s, Ask(name, id));
    StepKeepsTimers(s, Ask(name, id));
  }

  /** The timer was made for room `r`, by its own report. */
  predicate OwnTimer(s: State, id: nat, r: nat) {
    id in s.timers && s.timers[id].room == r && s.timers[id].By() == r
  }

  /** The room's own timers are those of state `u`, and none of them becomes due any more. */
  ghost predicate OnlyLeftovers(u: State, s: State, r: nat) {
    forall id :: OwnTimer(s, id, r) ==>
      OwnTimer(u, id, r) && !s.timers[id].state.Armed? && (s.timers[id].state.Due? ==> u.timers[id].state.Due?)
  }

  /** The state of a timer after a step that arms no new one of the room's own. */
  ghost predicate NoneArmed(s: State, t: State, r: nat, id: nat) {
    OwnTimer(t, id, r) ==>
      && OwnTimer(s, id, r)
      && (t.timers[id].state.Armed? ==> s.timers[id].state.Armed?)
      && (t.timers[id].state.Due? ==> s.timers[id].state.Due? || s.timers[id].state.Armed?)
  }

  lemma StopArmsNone(s: State, timer: Option<nat>, r: nat, id: nat)
    ensures NoneArmed(s, s.(timers := StopTimer(s.timers, timer)), r, id)
  {
  }

  lemma AskArmsNone(s: State, e: Event, r: nat, id: nat)
    requires e.Ask?
    ensures NoneArmed(s, Next(s, e), r, id)
  {
    hide StopTimer;
    if e.name in s.rooms { StopArmsNone(s, s.rooms[e.name].timer, r, id); }
  }

  lemma ReportArmsNone(s: State, e: Event, r: nat, id: nat)
    requires e.Idle? && e.from != r
    ensures NoneArmed(s, Next(s, e), r, id)
  {
    hide StopTimer;
    hide Reports;
    if e.name in s.rooms { StopArmsNone(s, s.rooms[e.name].timer, r, id); }
  }

  lemma OtherArmsNone(s: State, e: Event, r: nat, id: nat)
    requires Enabled(s, e) && !e.Ask? && !e.Idle?
    ensures NoneArmed(s, Next(s, e), r, id)
  {
    hide RoomsOf;
    hide Held;
  }

  lemma StepArmsNone(s: State, e: Event, r: nat, id: nat)
    requires Enabled(s, e) && !OwnReport(e, r)
    ensures NoneArmed(s, Next(s, e), r, id)
  {
    hide Next;
    hide NoneArmed;
    if e.Ask? {
      AskArmsNone(s, e, r, id);
    } else if e.Idle? {
      ReportArmsNone(s, e, r, id);
    } else {
      OtherArmsNone(s, e, r, id);
    }
  }

  lemma LeftoversStay(u: State, s: State, e: Event, r: nat)
    requires OnlyLeftovers(u, s, r) && Enabled(s, e) && !OwnReport(e, r)
    ensures OnlyLeftovers(u, Next(s, e), r)
  {
    hide Next;
    hide Enabled;
    hide OwnReport;
    var t := Next(s, e);
    forall id: nat | OwnTimer(t, id, r)
      ensures OwnTimer(u, id, r) && !t.timers[id].state.Armed?
      ensures t.timers[id].state.Due? ==> u.timers[id].state.Due?
    {
      StepArmsNone(s, e, r, id);
    }
  }

  /** Right after a request, the timers of the room given are what it is about. */
  lemma LeftoversFirst(es: seq<Event>, e: Event, r: nat)
    requires Possible(INIT, es) && Enabled(Run(INIT, es), e) && e.Ask? && !Run(INIT, es).stopped
    requires Given(Run(INIT, es), e.name, e.id) == r
    ensures var u := Next(Run(INIT, es), e); OnlyLeftovers(u, u, r)
  {
    hide Run;
    hide Next;
    var u := Next(Run(INIT, es), e);
    forall t: nat ensures OwnTimer(u, t, r) ==> !u.timers[t].state.Armed? {
      AskDisarms(es, e.name, e.id, t);
    }
  }

  lemma {:induction false} PossiblePrefix(es: seq<Event>, j: nat)
    requires Possible(INIT, es) && j <= |es|
    ensures Possible(INIT, es[..j])
    ensures j > 0 ==> Possible(INIT, es[..j - 1]) && Enabled(Run(INIT, es[..j - 1]), es[j - 1])
    decreases |es| - j
  {
    if j == |es| {
      assert es[..j] == es;
    } else {
      PossiblePrefix(es, j + 1);
      assert es[..j + 1][..j] == es[..j];
    }
    if j > 0 { assert es[..j][..j - 1] == es[..j - 1]; }
  }

  lemma RunLast(es: seq<Event>, j: nat)
    requires 0 < j <= |es|
    ensures Run(INIT, es[..j]) == Next(Run(INIT, es[..j - 1]), es[j - 1])
  {
    hide Next;
    assert es[..j][..j - 1] == es[..j - 1];
  }

  /** The run up to `j`, one step before, and what the last step is not. */
  lemma SinceStep(es: seq<Event>, i: nat, j: nat, r: nat)
    requires Possible(INIT, es) && i < j <= |es| && WantedSince(es, i, r)
    ensures Possible(INIT, es[..j - 1]) && Enabled(Run(INIT, es[..j - 1]), es[j - 1])
    ensures Run(INIT, es[..j]) == Next(Run(INIT, es[..j - 1]), es[j - 1])
    ensures if j == i + 1 then Gives(es, i, r) else !OwnReport(es[j - 1], r)
  {
    hide Possible;
    hide Next;
    hide Enabled;
    hide Gives;
    hide OwnReport;
    PossiblePrefix(es, j);
    RunLast(es, j);
  }

  lemma GivesMeans(es: seq<Event>, i: nat, r: nat)
    requires i < |es| && Gives(es, i, r)
    ensures es[i].Ask? && !Run(INIT, es[..i]).stopped && Given(Run(INIT, es[..i]), es[i].name, es[i].id) == r
  {
  }

  lemma {:induction false} LeftoversSince(es: seq<Event>, i: nat, j: nat, r: nat)
    requires Possible(INIT, es) && i < j <= |es| && WantedSince(es, i, r)
    ensures OnlyLeftovers(Run(INIT, es[..i + 1]), Run(INIT, es[..j]), r)
  {
    hide *;
    SinceStep(es, i, j, r);
    if j == i + 1 {
      GivesMeans(es, i, r);
      LeftoversFirst(es[..i], es[i], r);
    } else {
      LeftoversSince(es, i, j - 1, r);
      LeftoversStay(Run(INIT, es[..i + 1]), Run(INIT, es[..j - 1]), es[j - 1], r);
    }
  }

  /** The callback that takes a wanted room was due already when the room was given, or was armed for
      an earlier room of that name, or by the late report of one. */
  lemma WantedTaken(es: seq<Event>, i: nat, id: nat)
    requires Possible(INIT, es) && Enabled(Run(INIT, es), Claim(id))
    requires Run(INIT, es).timers[id].name in Run(INIT, es).rooms
    requires i < |es| && WantedSince(es, i, Run(INIT, es).rooms[Run(INIT, es).timers[id].name].room)
    ensures var s, u := Run(INIT, es), Run(INIT, es[..i + 1]);
            var timer := s.timers[id];
            var r := s.rooms[timer.name].room;
            || (id in u.timers && u.timers[id].state.Due?)
            || (timer.room != r && s.pending[timer.room] + s.closed[timer.room] == 1)
            || (timer.By() != r && s.pending[timer.By()] + s.closed[timer.By()] == 1)
  {
    var s := Run(INIT, es);
    var timer := s.timers[id];
    var r := s.rooms[timer.name].room;
    LeftoversSince(es, i, |es|, r);
    assert es[..|es|] == es;
    Reachable(es);
    hide Run;
    assert OnePlace(s, timer.room) && OnePlace(s, timer.By());
    assert timer.By() in timer.reports;
  }

  // ---------------------------------------------------------------- each of these happens

  /** Room 0 reported itself idle, and its timer has expired. */
  function OneDue(n: string): State {
    State(map[n := Entry(0, Some(0))], false, map[0 := n], map[0 := TimerRecord(n, 0, [0], Due)],
          multiset{}, multiset{})
  }

  lemma Steps(n: string)
    ensures var s := Next(INIT, Ask(n, 0));
            var t := Next(s, Idle(n, 0, 0));
            && Enabled(INIT, Ask(n, 0)) && Enabled(s, Idle(n, 0, 0)) && Enabled(t, Expire(0))
            && Next(t, Expire(0)) == OneDue(n)
  {
    var s := Next(INIT, Ask(n, 0));
    assert s == State(map[n := Entry(0, None)], false, map[0 := n], map[], multiset{}, multiset{});
    var t := Next(s, Idle(n, 0, 0));
    assert StopTimer(s.timers, None) == map[] && Reports(s.timers, None) + [0] == [0];
    assert t.timers == map[0 := TimerRecord(n, 0, [0], Armed)];
    assert t.rooms == map[n := Entry(0, Some(0))];
    assert t == State(map[n := Entry(0, Some(0))], false, map[0 := n], map[0 := TimerRecord(n, 0, [0], Armed)],
                      multiset{}, multiset{});
  }

  lemma Expired(n: string) returns (es: seq<Event>)
    ensures es == [Ask(n, 0), Idle(n, 0, 0), Expire(0)] && Possible(INIT, es) && Run(INIT, es) == OneDue(n)
  {
    hide Next;
    es := [];
    Steps(n);
    assert Possible(INIT, []) && Run(INIT, []) == INIT;
    Take(es, Ask(n, 0));
    es := es + [Ask(n, 0)];
    Take(es, Idle(n, 0, 0));
    es := es + [Idle(n, 0, 0)];
    Take(es, Expire(0));
    es := es + [Expire(0)];
  }

  /** A request that ends the run makes its room wanted. */
  lemma LastGiven(es: seq<Event>, r: nat)
    requires es != [] && Gives(es, |es| - 1, r)
    ensures Wanted(es, r)
  {
    assert WantedSince(es, |es| - 1, r);
  }

  /** Somebody comes back just when the timer expires. */
  lemma WantedRoomReaped(n: string) returns (es: seq<Event>)
    ensures Possible(INIT, es) && Enabled(Run(INIT, es), Claim(0))
    ensures var s := Run(INIT, es);
            s.timers[0].name == n && n in s.rooms && s.rooms[n].room == 0 && Wanted(es, 0)
  {
    var due := Expired(n);
    hide Run;
    hide Possible;
    Take(due, Ask(n, 1));
    es := due + [Ask(n, 1)];
    assert es[..|due|] == due;
    LastGiven(es, 0);
  }

  lemma MoreSteps(n: string)
    ensures var s := Next(OneDue(n), Idle(n, 0, 1));
            var t := Next(s, Claim(0));
            var u := Next(t, Ask(n, 1));
            var v := Next(u, Expire(1));
            && Enabled(OneDue(n), Idle(n, 0, 1)) && Enabled(s, Claim(0)) && Enabled(t, Ask(n, 1))
            && Enabled(u, Expire(1)) && Enabled(v, Claim(1)) && !t.stopped && n !in t.rooms
            && v.timers[1].name == n && v.timers[1].room == 0 && n in v.rooms && v.rooms[n].room == 1
  {
  }

  lemma StillWanted(es: seq<Event>, e: Event, r: nat)
    requires Wanted(es, r) && !OwnReport(e, r)
    ensures Wanted(es + [e], r)
  {
    assert (es + [e])[..|es|] == es;
    WantedStep(es + [e], r);
  }

  /** A room that reports itself idle twice is reaped by the first callback, which leaves the second
      timer armed for the next room of that name. */
  lemma SuccessorReaped(n: string) returns (es: seq<Event>)
    ensures Possible(INIT, es) && Enabled(Run(INIT, es), Claim(1))
    ensures var s := Run(INIT, es);
            && s.timers[1].name == n && n in s.rooms && s.rooms[n].room == 1 && Wanted(es, 1)
            && s.timers[1].room == 0
  {
    var due := Expired(n);
    hide Possible;
    hide Run;
    hide Next;
    MoreSteps(n);
    Take(due, Idle(n, 0, 1));
    var claimed := due + [Idle(n, 0, 1)];
    Take(claimed, Claim(0));
    claimed := claimed + [Claim(0)];
    Take(claimed, Ask(n, 1));
    es := claimed + [Ask(n, 1)];
    assert es[..|claimed|] == claimed;
    LastGiven(es, 1);
    Take(es, Expire(1));
    StillWanted(es, Expire(1), 1);
    es := es + [Expire(1)];
  }

  lemma LateSteps(n: string)
    ensures var s := Next(OneDue(n), Claim(0));
            var t := Next(s, Ask(n, 1));
            var u := Next(t, Idle(n, 0, 1));
            var v := Next(u, Expire(1));
            && Enabled(OneDue(n), Claim(0)) && Enabled(s, Ask(n, 1)) && Enabled(t, Idle(n, 0, 1))
            && Enabled(u, Expire(1)) && Enabled(v, Claim(1)) && !s.stopped && n !in s.rooms
            && v.timers[1].name == n && v.timers[1].room == 1 && v.timers[1].By() == 0
            && v.rooms == map[n := Entry(1, Some(1))]
  {
  }

  /** A reaped room handles a repeated leave before it sees that it is stopped: its late report arms
      the timer of the next room of that name, which was never idle. */
  lemma LateReportReaps(n: string) returns (es: seq<Event>)
    ensures Possible(INIT, es) && Enabled(Run(INIT, es), Claim(1))
    ensures var s := Run(INIT, es);
            && s.timers[1].name == n && s.rooms == map[n := Entry(1, Some(1))] && Wanted(es, 1)
            && s.timers[1].room == 1 && s.timers[1].By() == 0
  {
    var due := Expired(n);
    hide Possible;
    hide Run;
    hide Next;
    LateSteps(n);
    Take(due, Claim(0));
    var claimed := due + [Claim(0)];
    Take(claimed, Ask(n, 1));
    es := claimed + [Ask(n, 1)];
    assert es[..|claimed|] == claimed;
    LastGiven(es, 1);
    Take(es, Idle(n, 0, 1));
    StillWanted(es, Idle(n, 0, 1), 1);
    es := es + [Idle(n, 0, 1)];
    Take(es, Expire(1));
    StillWanted(es, Expire(1), 1);
    es := es + [Expire(1)];
  }
}
