/** The live-session protocol as atomic steps of publishers, watchdogs, disconnects,
    shutdown, process crashes and boots, in every interleaving. A publish attempt, its
    session and its row share one id: the id of the row. */
module StreamProtocol {
  import opened Collections
  import opened StreamTable

  /** Where a publish attempt stands in OnPublish before registry.add. */
  datatype Stage = Mkdir | StartFFmpeg | NewEncoder | Register

  datatype Phase =
    | Preparing(stage: Stage)
    | Aborted                                // lost the row's id, or a stage failed; the row stays open
    | LosingRace                             // add returned false; own row not closed yet
    | Refused(updated: bool)
    | Live
    | Closing(reason: Reason)                // tearDown won the once; still registered
    | Unregistered(reason: Reason)
    | Finished(reason: Reason, updated: bool)
    | Died(during: Phase)                    // the process ended in this phase
    | Recovered(was: Phase)                  // its open row was swept at a later boot

  datatype Publish = Publish(channelName: string, phase: Phase)

  /** Who calls tearDown, and with which reason. */
  datatype Caller = Watchdog(waitErr: bool) | Disconnect | Shutdown

  function ReasonOf(c: Caller): Reason {
    match c
    case Watchdog(waitErr) => if waitErr then Crashed else Normal
    case Disconnect => Normal
    case Shutdown => OrphanSwept
  }

  datatype System = System(up: bool, byName: map<string, int>, rows: Rows, pubs: map<int, Publish>)

  datatype Event =
    | Create(id: int, channelID: int, channelName: string, at: int)
    | Advance(id: int)                       // mkdir, ffmpeg or encoder succeeded
    | Fail(id: int)                          // ... or failed
    | Add(id: int)
    | CloseLoser(id: int, at: int, ok: bool)
    | TearDown(id: int, caller: Caller)
    | Unregister(id: int)
    | CloseRow(id: int, at: int, ok: bool)
    | Crash
    | Recover(at: int, swept: bool, started: bool)

  const INIT := System(false, map[], map[], map[])

  /** Phases of a goroutine of the running process. */
  predicate Running(p: Phase) {
    p.Preparing? || p.LosingRace? || p.Live? || p.Closing? || p.Unregistered?
  }

  /** Between a successful add and the session's own remove. */
  predicate Registered(p: Phase) {
    p.Live? || p.Closing?
  }

  /** The session object exists, so tearDown can be called on it. */
  predicate HasSession(p: Phase) {
    p.Live? || p.Closing? || p.Unregistered? || p.Finished?
  }

  predicate Enabled(s: System, e: Event) {
    match e
    case Create(id, _, _, _) => s.up && id > 0 && id !in s.rows && id !in s.pubs
    case Advance(id) => s.up && id in s.pubs && s.pubs[id].phase.Preparing? && !s.pubs[id].phase.stage.Register?
    case Fail(id) => s.up && id in s.pubs && s.pubs[id].phase.Preparing? && !s.pubs[id].phase.stage.Register?
    case Add(id) => s.up && id in s.pubs && s.pubs[id].phase == Preparing(Register)
    case CloseLoser(id, _, _) => s.up && id in s.pubs && s.pubs[id].phase.LosingRace?
    case TearDown(id, _) => s.up && id in s.pubs && HasSession(s.pubs[id].phase)
    case Unregister(id) => s.up && id in s.pubs && s.pubs[id].phase.Closing?
    case CloseRow(id, _, _) => s.up && id in s.pubs && s.pubs[id].phase.Unregistered?
    case Crash => true
    case Recover(_, _, _) => !s.up
  }

  function NextStage(g: Stage): Stage {
    match g
    case Mkdir => StartFFmpeg
    case StartFFmpeg => NewEncoder
    case _ => Register
  }

  function Move(s: System, id: int, p: Phase): System
    requires id in s.pubs
  {
    s.(pubs := s.pubs[id := s.pubs[id].(phase := p)])
  }

  function Next(s: System, e: Event): System
    requires Enabled(s, e)
  {
    match e
    case Create(id, channelID, name, at) =>
      s.(rows := Inserted(s.rows, id, channelID, at), pubs := s.pubs[id := Publish(name, Preparing(Mkdir))])
    case Advance(id) => Move(s, id, Preparing(NextStage(s.pubs[id].phase.stage)))
    case Fail(id) => Move(s, id, Aborted)
    case Add(id) =>
      var name := s.pubs[id].channelName;
      if name in s.byName then Move(s, id, LosingRace)
      else Move(s.(byName := s.byName[name := id]), id, Live)
    case CloseLoser(id, at, ok) =>
      Move(if ok then s.(rows := Ended(s.rows, id, at, OrphanSwept)) else s, id, Refused(ok))
    case TearDown(id, caller) =>
      if s.pubs[id].phase.Live? then Move(s, id, Closing(ReasonOf(caller))) else s
    case Unregister(id) =>
      Move(s.(byName := s.byName - {s.pubs[id].channelName}), id, Unregistered(s.pubs[id].phase.reason))
    case CloseRow(id, at, ok) =>
      var r := s.pubs[id].phase.reason;
      Move(if ok then s.(rows := Ended(s.rows, id, at, r)) else s, id, Finished(r, ok))
    case Crash =>
      s.(up := false, byName := map[], pubs := map id | id in s.pubs ::
           if Running(s.pubs[id].phase) then s.pubs[id].(phase := Died(s.pubs[id].phase)) else s.pubs[id])
    case Recover(at, swept, started) =>
      if !swept then s
      else s.(up := started, rows := Swept(s.rows, at), pubs := map id | id in s.pubs ::
                if id in s.rows && IsOpen(s.rows[id]) then s.pubs[id].(phase := Recovered(s.pubs[id].phase))
                else s.pubs[id])
  }

  ghost predicate Possible(s: System, es: seq<Event>)
    decreases |es|, 0
  {
    es == [] || (Possible(s, es[..|es| - 1]) && Enabled(Run(s, es[..|es| - 1]), es[|es| - 1]))
  }

  ghost function Run(s: System, es: seq<Event>): System
    requires Possible(s, es)
    decreases |es|, 1
  {
    if es == [] then s else Next(Run(s, es[..|es| - 1]), es[|es| - 1])
  }

  // ---------------------------------------------------------------- the invariant

  /** The reason a phase's row is closed with, or None while the row is open. */
  function ClosedWith(p: Phase): Option<Reason> {
    match p
    case Refused(updated) => if updated then Some(OrphanSwept) else None
    case Finished(reason, updated) => if updated then Some(reason) else None
    case Recovered(_) => Some(OrphanSwept)
    case _ => None
  }

  ghost predicate RegistryExact(s: System) {
    && (forall n :: n in s.byName ==>
          var id := s.byName[n]; id in s.pubs && s.pubs[id].channelName == n && Registered(s.pubs[id].phase))
    && (forall id :: id in s.pubs && Registered(s.pubs[id].phase) ==>
          s.pubs[id].channelName in s.byName && s.byName[s.pubs[id].channelName] == id)
  }

  ghost predicate RowAgrees(r: Row, p: Phase) {
    r.endReason == ClosedWith(p) && (r.endedAt.Some? <==> r.endReason.Some?)
  }

  /** What the wrapper phases may wrap. */
  ghost predicate WellNested(p: Phase) {
    match p
    case Died(q) => Running(q)
    case Recovered(q) => ClosedWith(q).None? && !Running(q) && WellNested(q)
    case _ => true
  }

  ghost predicate Inv(s: System) {
    && s.pubs.Keys == s.rows.Keys
    && RegistryExact(s)
    && (forall id :: id in s.pubs ==> RowAgrees(s.rows[id], s.pubs[id].phase) && WellNested(s.pubs[id].phase))
    && (forall id :: id in s.pubs ==> if s.up then !s.pubs[id].phase.Died? else !Running(s.pubs[id].phase))
  }

  lemma CreateKeepsInv(s: System, e: Event)
    requires Inv(s) && Enabled(s, e) && e.Create?
    ensures Inv(Next(s, e))
  {
  }

  lemma RegistryIgnoresMove(s: System, id: int, p: Phase, rows: map<int, Row>)
    requires RegistryExact(s) && id in s.pubs && Registered(p) == Registered(s.pubs[id].phase)
    ensures RegistryExact(Move(s.(rows := rows), id, p))
  {
  }

  lemma MoveKeepsInv(s: System, e: Event)
    requires Inv(s) && Enabled(s, e)
    requires e.Advance? || e.Fail? || e.TearDown?
    ensures Inv(Next(s, e))
  {
    if !e.TearDown? || s.pubs[e.id].phase.Live? {
      RegistryIgnoresMove(s, e.id, Next(s, e).pubs[e.id].phase, s.rows);
    }
  }

  lemma RowStepKeepsInv(s: System, e: Event)
    requires Inv(s) && Enabled(s, e)
    requires e.CloseLoser? || e.CloseRow?
    ensures Inv(Next(s, e))
  {
    hide RegistryExact;
    var t := Next(s, e);
    RegistryIgnoresMove(s, e.id, t.pubs[e.id].phase, t.rows);
    assert t == Move(s.(rows := t.rows), e.id, t.pubs[e.id].phase);
    assert RowAgrees(s.rows[e.id], s.pubs[e.id].phase);
    assert RowAgrees(t.rows[e.id], t.pubs[e.id].phase);
    assert forall id :: id in t.pubs && id != e.id ==> t.pubs[id] == s.pubs[id] && t.rows[id] == s.rows[id];
  }

  lemma AddRegisters(s: System, id: int)
    requires RegistryExact(s) && id in s.pubs && !Registered(s.pubs[id].phase) && s.pubs[id].channelName !in s.byName
    ensures RegistryExact(Move(s, id, Live).(byName := s.byName[s.pubs[id].channelName := id]))
  {
    assert forall other :: other in s.pubs && Registered(s.pubs[other].phase) ==>
                             s.pubs[other].channelName != s.pubs[id].channelName;
  }

  lemma AddKeepsInv(s: System, e: Event)
    requires Inv(s) && Enabled(s, e) && e.Add?
    ensures Inv(Next(s, e))
  {
    hide RegistryExact;
    if s.pubs[e.id].channelName in s.byName {
      RegistryIgnoresMove(s, e.id, LosingRace, s.rows);
    } else {
      AddRegisters(s, e.id);
    }
  }

  lemma UnregisterKeepsInv(s: System, e: Event)
    requires Inv(s) && Enabled(s, e) && e.Unregister?
    ensures Inv(Next(s, e))
  {
  }

  lemma ProcessStepKeepsInv(s: System, e: Event)
    requires Inv(s) && Enabled(s, e) && (e.Crash? || e.Recover?)
    ensures Inv(Next(s, e))
  {
    var t := Next(s, e);
    forall id | id in t.pubs
      ensures RowAgrees(t.rows[id], t.pubs[id].phase) && WellNested(t.pubs[id].phase)
      ensures if t.up then !t.pubs[id].phase.Died? else !Running(t.pubs[id].phase)
    {
      assert RowAgrees(s.rows[id], s.pubs[id].phase);
    }
    if e.Recover? {
      forall id | id in t.pubs
        ensures Registered(t.pubs[id].phase) == Registered(s.pubs[id].phase)
      {
        assert RowAgrees(s.rows[id], s.pubs[id].phase);
      }
    }
  }

  lemma StepKeepsInv(s: System, e: Event)
    requires Inv(s) && Enabled(s, e)
    ensures Inv(Next(s, e))
  {
    match e
    case Create(_, _, _, _) => CreateKeepsInv(s, e);
    case Add(_) => AddKeepsInv(s, e);
    case Unregister(_) => UnregisterKeepsInv(s, e);
    case CloseLoser(_, _, _) => RowStepKeepsInv(s, e);
    case CloseRow(_, _, _) => RowStepKeepsInv(s, e);
    case Crash => ProcessStepKeepsInv(s, e);
    case Recover(_, _, _) => ProcessStepKeepsInv(s, e);
    case _ => MoveKeepsInv(s, e);
  }

  lemma {:induction false} RunKeepsInv(s: System, es: seq<Event>)
    requires Inv(s) && Possible(s, es)
    ensures Inv(Run(s, es))
  {
    if es != [] {
      RunKeepsInv(s, es[..|es| - 1]);
      StepKeepsInv(Run(s, es[..|es| - 1]), es[|es| - 1]);
    }
  }

  lemma Reachable(es: seq<Event>)
    requires Possible(INIT, es)
    ensures Inv(Run(INIT, es))
  {
    RunKeepsInv(INIT, es);
  }

  // ---------------------------------------------------------------- the live registry

  /** In every reachable state a channel name maps to a session exactly while the session is
      between its own add and its own remove; so no channel has two registered sessions. */
  lemma RegisteredExactlyWhileLive(es: seq<Event>, name: string, id: int)
    requires Possible(INIT, es)
    ensures var s := Run(INIT, es);
            (name in s.byName && s.byName[name] == id)
            <==> (id in s.pubs && s.pubs[id].channelName == name && Registered(s.pubs[id].phase))
  {
    Reachable(es);
  }

  /** Remove-by-name takes out the caller's own session and nobody else's, and the row of the
      session is still open then. */
  lemma RemovesOwnSession(es: seq<Event>, id: int)
    requires Possible(INIT, es) && Enabled(Run(INIT, es), Unregister(id))
    ensures var s := Run(INIT, es);
            var t := Next(s, Unregister(id));
            var name := s.pubs[id].channelName;
            && name in s.byName && s.byName[name] == id
            && t.byName == (map n | n in s.byName && s.byName[n] != id :: s.byName[n])
            && id in s.rows && IsOpen(s.rows[id])
  {
    Reachable(es);
    var s := Run(INIT, es);
    assert RowAgrees(s.rows[id], s.pubs[id].phase);
    assert forall n :: n in s.byName && s.byName[n] == id ==> n == s.pubs[id].channelName;
  }

  /** A registered session's row is open. */
  lemma RegisteredRowOpen(es: seq<Event>, name: string)
    requires Possible(INIT, es) && name in Run(INIT, es).byName
    ensures var s := Run(INIT, es); s.byName[name] in s.rows && IsOpen(s.rows[s.byName[name]])
  {
    Reachable(es);
    var s := Run(INIT, es);
    assert RowAgrees(s.rows[s.byName[name]], s.pubs[s.byName[name]].phase);
  }

  /** A publisher that lost the race closes its own row only: the winner stays registered,
      and its row stays open. */
  lemma LoserHarmless(es: seq<Event>, id: int, at: int, ok: bool)
    requires Possible(INIT, es) && Enabled(Run(INIT, es), CloseLoser(id, at, ok))
    ensures var s := Run(INIT, es);
            var t := Next(s, CloseLoser(id, at, ok));
            && t.byName == s.byName && id !in s.byName.Values
            && t.rows - {id} == s.rows - {id}
            && id in s.rows && IsOpen(s.rows[id])
            && (ok ==> id in t.rows && t.rows[id].endReason == Some(OrphanSwept))
  {
    Reachable(es);
    var s := Run(INIT, es);
    assert RowAgrees(s.rows[id], s.pubs[id].phase);
    assert forall n :: n in s.byName ==> s.byName[n] != id;
  }

  // ---------------------------------------------------------------- the rows across crashes

  lemma PossiblePrefix(s: System, es: seq<Event>, more: seq<Event>)
    requires Possible(s, es + more)
    ensures Possible(s, es) && Possible(Run(s, es), more) && Run(s, es + more) == Run(Run(s, es), more)
  {
    if more == [] {
      assert es + more == es;
    } else {
      var front := more[..|more| - 1];
      assert (es + more)[..|es + more| - 1] == es + front;
      PossiblePrefix(s, es, front);
    }
  }

  /** How a row may change: its closing columns go together from null to set, and stay. */
  ghost predicate RowEvolves(before: Row, after: Row) {
    && (before.endedAt.Some? <==> before.endReason.Some?)
    && (after.endedAt.Some? <==> after.endReason.Some?)
    && (before.endedAt.Some? ==> after == before)
    && after.channelID == before.channelID && after.startedAt == before.startedAt
  }

  lemma RowStep(s: System, e: Event, id: int)
    requires Inv(s) && Enabled(s, e) && id in s.rows
    ensures id in Next(s, e).rows && RowEvolves(s.rows[id], Next(s, e).rows[id])
  {
    assert RowAgrees(s.rows[id], s.pubs[id].phase);
  }

  lemma {:induction false} RowRun(s: System, es: seq<Event>, id: int)
    requires Inv(s) && Possible(s, es) && id in s.rows
    ensures id in Run(s, es).rows && RowEvolves(s.rows[id], Run(s, es).rows[id])
  {
    if es == [] {
      assert RowAgrees(s.rows[id], s.pubs[id].phase);
    } else {
      var front := es[..|es| - 1];
      RowRun(s, front, id);
      RunKeepsInv(s, front);
      RowStep(Run(s, front), es[|es| - 1], id);
    }
  }

  /** Every row's two closing columns are set together, at most once, and nothing ever
      changes a closed row, a row's channel or its start, through any crashes and boots. */
  lemma RowsWriteOnce(es: seq<Event>, more: seq<Event>, id: int)
    requires Possible(INIT, es + more)
    ensures Possible(INIT, es)
    ensures id in Run(INIT, es).rows ==>
              id in Run(INIT, es + more).rows && RowEvolves(Run(INIT, es).rows[id], Run(INIT, es + more).rows[id])
  {
    PossiblePrefix(INIT, es, more);
    Reachable(es);
    if id in Run(INIT, es).rows { RowRun(Run(INIT, es), more, id); }
  }

  lemma CreatedStep(s: System, e: Event, id: int)
    requires Inv(s) && Enabled(s, e) && e.Create? && e.id == id
    ensures id in Next(s, e).rows && id in Next(s, e).pubs
    ensures var r, p := Next(s, e).rows[id], Next(s, e).pubs[id];
            r.channelID == e.channelID && r.startedAt == e.at && p.channelName == e.channelName && IsOpen(r)
  {
  }

  lemma NameStays(s: System, e: Event, id: int)
    requires Enabled(s, e) && id in s.pubs
    ensures id in Next(s, e).pubs && Next(s, e).pubs[id].channelName == s.pubs[id].channelName
  {
  }

  /** A row holds the channel and the start time that it was made with, for ever. */
  lemma {:induction false} RowContents(es: seq<Event>, e: Event)
    requires Possible(INIT, es) && e in es && e.Create?
    ensures var s := Run(INIT, es);
            && e.id in s.rows && e.id in s.pubs
            && s.rows[e.id].channelID == e.channelID && s.rows[e.id].startedAt == e.at
            && s.pubs[e.id].channelName == e.channelName
  {
    var front, last := es[..|es| - 1], es[|es| - 1];
    assert es == front + [last];
    Reachable(front);
    if e in front {
      RowContents(front, e);
      RowStep(Run(INIT, front), last, e.id);
      NameStays(Run(INIT, front), last, e.id);
    } else {
      CreatedStep(Run(INIT, front), last, e.id);
    }
  }

  /** Event `e` closes row `id` at time `at`, with that reason. */
  predicate Closer(e: Event, id: int, at: int, swept: bool) {
    if e.Recover? then swept && e.swept && e.at == at
    else if e.CloseLoser? then swept && e.ok && e.id == id && e.at == at
    else e.CloseRow? && !swept && e.ok && e.id == id && e.at == at
  }

  /** The row is open before event `k`, which closes it. */
  ghost predicate ClosedBy(es: seq<Event>, k: nat, id: int, at: int, swept: bool)
    requires k < |es|
  {
    Possible(INIT, es[..k]) && id in Run(INIT, es[..k]).rows && IsOpen(Run(INIT, es[..k]).rows[id])
    && Closer(es[k], id, at, swept)
  }

  lemma CloseStep(s: System, e: Event, id: int)
    requires Inv(s) && Enabled(s, e) && id in Next(s, e).rows && !IsOpen(Next(s, e).rows[id])
    requires id in s.rows ==> IsOpen(s.rows[id])
    ensures id in s.rows
    ensures var r := Next(s, e).rows[id];
            || Closer(e, id, r.endedAt.value, false)
            || (Closer(e, id, r.endedAt.value, true) && r.endReason == Some(OrphanSwept))
  {
    if id in s.rows { assert RowAgrees(s.rows[id], s.pubs[id].phase); }
  }

  /** A closed row bears the time of the one update or sweep that closed it; a lost race or a sweep is
      called orphan_swept. */
  lemma {:induction false} EndedAtTruthful(es: seq<Event>, id: int) returns (k: nat)
    requires Possible(INIT, es) && id in Run(INIT, es).rows && !IsOpen(Run(INIT, es).rows[id])
    ensures k < |es|
    ensures var r := Run(INIT, es).rows[id];
            ClosedBy(es, k, id, r.endedAt.value, false)
            || (ClosedBy(es, k, id, r.endedAt.value, true) && r.endReason == Some(OrphanSwept))
  {
    var n := |es| - 1;
    var front, e := es[..n], es[n];
    var s := Run(INIT, front);
    Reachable(front);
    if id in s.rows && !IsOpen(s.rows[id]) {
      k := EndedAtTruthful(front, id);
      RowStep(s, e, id);
      assert front[..k] == es[..k];
    } else {
      k := n;
      CloseStep(s, e, id);
    }
  }

  // ---------------------------------------------------------------- truthful end reasons

  /** The caller of the first tearDown on the session: the one that wins the once. */
  ghost function FirstTearDown(es: seq<Event>, id: int): Option<Caller> {
    if es == [] then None
    else
      var first := FirstTearDown(es[..|es| - 1], id);
      var e := es[|es| - 1];
      if first.None? && e.TearDown? && e.id == id then Some(e.caller) else first
  }

  /** The closing update of the session was sent, with this outcome. */
  ghost predicate RowUpdate(es: seq<Event>, id: int, ok: bool) {
    exists at :: CloseRow(id, at, ok) in es
  }

  ghost predicate WonWith(es: seq<Event>, id: int, r: Reason) {
    var first := FirstTearDown(es, id);
    first.Some? && ReasonOf(first.value) == r
  }

  ghost predicate NothingYet(es: seq<Event>, id: int) {
    FirstTearDown(es, id).None? && !RowUpdate(es, id, true) && !RowUpdate(es, id, false)
  }

  /** A phase, explained by the events that led to it. */
  ghost predicate Explained(p: Phase, es: seq<Event>, id: int) {
    match p
    case Closing(r) => WonWith(es, id, r) && !RowUpdate(es, id, true) && !RowUpdate(es, id, false)
    case Unregistered(r) => WonWith(es, id, r) && !RowUpdate(es, id, true) && !RowUpdate(es, id, false)
    case Finished(r, ok) => WonWith(es, id, r) && RowUpdate(es, id, ok) && !RowUpdate(es, id, !ok)
    case Died(q) => Crash in es && Explained(q, es, id)
    case Recovered(q) => Explained(q, es, id)
    case _ => NothingYet(es, id)
  }

  lemma RowUpdateSnoc(es: seq<Event>, e: Event, id: int, ok: bool)
    ensures RowUpdate(es + [e], id, ok) <==> RowUpdate(es, id, ok) || (e.CloseRow? && e.id == id && e.ok == ok)
  {
    if e.CloseRow? { assert e in es + [e]; }
    if RowUpdate(es, id, ok) {
      var at :| CloseRow(id, at, ok) in es;
      assert CloseRow(id, at, ok) in es + [e];
    }
  }

  /** Events that are not about this session, or come too late, leave the explanation alone. */
  lemma {:induction p} ExplanationStays(p: Phase, es: seq<Event>, e: Event, id: int)
    requires Explained(p, es, id)
    requires e.TearDown? && e.id == id ==> FirstTearDown(es, id).Some?
    requires !(e.CloseRow? && e.id == id)
    ensures Explained(p, es + [e], id)
  {
    assert (es + [e])[..|es|] == es;
    RowUpdateSnoc(es, e, id, true);
    RowUpdateSnoc(es, e, id, false);
    match p
    case Died(q) => ExplanationStays(q, es, e, id);
    case Recovered(q) => ExplanationStays(q, es, e, id);
    case _ =>
  }

  /** How one event moves the phase of an attempt. */
  lemma PhaseMoves(s: System, e: Event, id: int)
    requires Enabled(s, e) && id in s.pubs
    ensures id in Next(s, e).pubs
    ensures var p, q := s.pubs[id].phase, Next(s, e).pubs[id].phase;
            if e.CloseRow? && e.id == id then p.Unregistered? && q == Finished(p.reason, e.ok)
            else if e.TearDown? && e.id == id && p.Live? then q == Closing(ReasonOf(e.caller))
            else
              || q == p || q == Recovered(p) || (q == Died(p) && e.Crash?)
              || (p.Closing? && q == Unregistered(p.reason))
              || ((p.Preparing? || p.LosingRace?)
                  && (q.Preparing? || q.LosingRace? || q.Aborted? || q.Live? || q.Refused?))
  {
  }

  lemma PhaseExplainedStep(s: System, es: seq<Event>, e: Event, id: int)
    requires Enabled(s, e) && id in s.pubs && Explained(s.pubs[id].phase, es, id)
    requires e.TearDown? && e.id == id && !s.pubs[id].phase.Live? ==> FirstTearDown(es, id).Some?
    ensures id in Next(s, e).pubs && Explained(Next(s, e).pubs[id].phase, es + [e], id)
  {
    PhaseMoves(s, e, id);
    hide Next;
    hide Enabled;
    hide RowUpdate;
    assert (es + [e])[..|es|] == es;
    RowUpdateSnoc(es, e, id, true);
    RowUpdateSnoc(es, e, id, false);
    var p := s.pubs[id].phase;
    if !(e.CloseRow? && e.id == id) && !(e.TearDown? && e.id == id && p.Live?) {
      ExplanationStays(p, es, e, id);
    }
  }

  /** A session whose tearDown is called again was torn down before. */
  lemma CalledBefore(s: System, es: seq<Event>, e: Event, id: int)
    requires Enabled(s, e) && id in s.pubs && Explained(s.pubs[id].phase, es, id)
    requires e.TearDown? && e.id == id && !s.pubs[id].phase.Live?
    ensures FirstTearDown(es, id).Some?
  {
  }

  /** An attempt that has not begun is begun by its Create only. */
  lemma NothingBegins(s: System, es: seq<Event>, e: Event, id: int)
    requires Enabled(s, e) && id !in s.pubs && NothingYet(es, id)
    ensures NothingYet(es + [e], id)
    ensures id in Next(s, e).pubs ==> Next(s, e).pubs[id].phase == Preparing(Mkdir)
  {
    assert (es + [e])[..|es|] == es;
    RowUpdateSnoc(es, e, id, true);
    RowUpdateSnoc(es, e, id, false);
  }

  lemma {:induction false} PhaseExplained(es: seq<Event>, id: int)
    requires Possible(INIT, es)
    ensures var s := Run(INIT, es);
            if id in s.pubs then Explained(s.pubs[id].phase, es, id) else NothingYet(es, id)
  {
    if es != [] {
      var front, e := es[..|es| - 1], es[|es| - 1];
      PhaseExplained(front, id);
      assert es == front + [e];
      var s := Run(INIT, front);
      if id in s.pubs {
        if e.TearDown? && e.id == id && !s.pubs[id].phase.Live? { CalledBefore(s, front, e, id); }
        PhaseExplainedStep(s, front, e, id);
      } else {
        NothingBegins(s, front, e, id);
      }
    }
  }

  /** The attempt got past registry.add at some point. */
  ghost predicate WasRegistered(p: Phase) {
    match p
    case Died(q) => WasRegistered(q)
    case Recovered(q) => WasRegistered(q)
    case _ => HasSession(p)
  }

  /** What a sweep at boot needs to close a row that was registered. */
  ghost predicate SweptAfter(s: System, es: seq<Event>, id: int)
    requires id in s.pubs
  {
    && s.pubs[id].phase.Recovered?
    && var was := s.pubs[id].phase.was;
       || (was.Died? && HasSession(was.during) && !was.during.Finished? && Crash in es)
       || (was.Finished? && RowUpdate(es, id, false))
  }

  lemma ReasonRecorded(es: seq<Event>, id: int)
    requires Possible(INIT, es)
    requires var s := Run(INIT, es);
             id in s.pubs && id in s.rows && WasRegistered(s.pubs[id].phase) && !IsOpen(s.rows[id])
    ensures var s := Run(INIT, es);
            var reason := s.rows[id].endReason;
            if RowUpdate(es, id, true)
            then FirstTearDown(es, id).Some? && reason == Some(ReasonOf(FirstTearDown(es, id).value))
            else reason == Some(OrphanSwept) && SweptAfter(s, es, id)
  {
    Reachable(es);
    PhaseExplained(es, id);
    var s := Run(INIT, es);
    var p := s.pubs[id].phase;
    assert RowAgrees(s.rows[id], p) && WellNested(p);
    if p.Recovered? {
      assert Explained(p.was, es, id) && WellNested(p.was);
      if p.was.Died? { assert Explained(p.was.during, es, id) && WasRegistered(p.was.during); }
    }
  }

  /** A closed row of a session that was registered tells the truth about the tearDown call that won
      the once: crashed for an ffmpeg error, orphan_swept for shutdown, normal otherwise; or else it was
      swept at a boot, because the process ended before the update or the update failed. */
  lemma EndReasonTruthful(es: seq<Event>, id: int)
    requires Possible(INIT, es)
    requires var s := Run(INIT, es);
             id in s.pubs && id in s.rows && WasRegistered(s.pubs[id].phase) && !IsOpen(s.rows[id])
    ensures var s := Run(INIT, es);
            var reason := s.rows[id].endReason;
            if RowUpdate(es, id, true)
            then
              var first := FirstTearDown(es, id);
              && first.Some? && reason.Some?
              && (reason == Some(Crashed) <==> first == Some(Watchdog(true)))
              && (reason == Some(Normal) <==> first == Some(Watchdog(false)) || first == Some(Disconnect))
              && (reason == Some(OrphanSwept) <==> first == Some(Shutdown))
            else reason == Some(OrphanSwept) && SweptAfter(s, es, id)
  {
    hide Run;
    hide FirstTearDown;
    hide SweptAfter;
    hide RowUpdate;
    ReasonRecorded(es, id);
  }

  // ---------------------------------------------------------------- open rows

  ghost function OpenRows(s: System): set<int> {
    set id | id in s.rows && IsOpen(s.rows[id])
  }

  /** Publishes past row creation, still inside OnPublish. */
  ghost function InProgress(s: System): set<int> {
    set id | id in s.pubs && (s.pubs[id].phase.Preparing? || s.pubs[id].phase.LosingRace?)
  }

  /** Registered or tearing-down sessions not yet past their row update. */
  ghost function Unfinished(s: System): set<int> {
    set id | id in s.pubs && (s.pubs[id].phase.Live? || s.pubs[id].phase.Closing? || s.pubs[id].phase.Unregistered?)
  }

  /** Publishes given up because the id of their row was lost, or mkdir, ffmpeg or the encoder failed. */
  ghost function GivenUp(s: System): set<int> {
    set id | id in s.pubs && s.pubs[id].phase.Aborted?
  }

  ghost function UpdateFailed(s: System): set<int> {
    set id | id in s.pubs && (s.pubs[id].phase.Refused? || s.pubs[id].phase.Finished?) && !s.pubs[id].phase.updated
  }

  /** After boot the open rows are exactly these four disjoint kinds. */
  lemma OpenRowAccounting(es: seq<Event>)
    requires Possible(INIT, es) && Run(INIT, es).up
    ensures var s := Run(INIT, es);
            && OpenRows(s) == InProgress(s) + Unfinished(s) + GivenUp(s) + UpdateFailed(s)
            && InProgress(s) !! Unfinished(s) !! GivenUp(s) !! UpdateFailed(s)
  {
    Reachable(es);
    var s := Run(INIT, es);
    forall id
      ensures id in OpenRows(s) <==> id in InProgress(s) + Unfinished(s) + GivenUp(s) + UpdateFailed(s)
    {
      if id in s.pubs { assert RowAgrees(s.rows[id], s.pubs[id].phase); }
    }
  }

  /** The sweep of the next boot leaves no row open, and closes exactly the open ones. */
  lemma RecoverClosesAll(es: seq<Event>, at: int, started: bool)
    requires Possible(INIT, es) && !Run(INIT, es).up
    ensures var s := Run(INIT, es);
            var t := Next(s, Recover(at, true, started));
            && OpenRows(t) == {} && t.rows.Keys == s.rows.Keys
            && forall id :: id in s.rows ==>
                 t.rows[id].endReason == if id in OpenRows(s) then Some(OrphanSwept) else s.rows[id].endReason
  {
    var s := Run(INIT, es);
    var t := Next(s, Recover(at, true, started));
    assert t.rows == Swept(s.rows, at);
    assert forall id :: id in t.rows ==> t.rows[id].endedAt.Some?;
    assert forall id :: id !in OpenRows(t);
  }

  lemma AbortedStep(s: System, e: Event, id: int)
    requires Enabled(s, e) && id in s.pubs && s.pubs[id].phase.Aborted? && !(e.Recover? && e.swept)
    ensures id in Next(s, e).pubs && Next(s, e).pubs[id].phase.Aborted?
  {
  }

  lemma {:induction false} AbortedStays(s: System, es: seq<Event>, id: int)
    requires Possible(s, es) && id in s.pubs && s.pubs[id].phase.Aborted?
    requires forall e :: e in es ==> !(e.Recover? && e.swept)
    ensures var t := Run(s, es); id in t.pubs && t.pubs[id].phase.Aborted?
  {
    if es != [] {
      var front, e := es[..|es| - 1], es[|es| - 1];
      AbortedStays(s, front, id);
      AbortedStep(Run(s, front), e, id);
    }
  }

  /** "An open row belongs to a live session" fails: a publish that never learns the id of its row, or
      gives up on mkdir, ffmpeg or the encoder, leaves its row open, whatever happens next, until a
      boot sweeps it. */
  lemma AbortedRowStaysOpen(es: seq<Event>, more: seq<Event>, id: int)
    requires Possible(INIT, es + [Fail(id)] + more)
    requires forall e :: e in more ==> !(e.Recover? && e.swept)
    ensures var s := Run(INIT, es + [Fail(id)] + more);
            id in s.rows && IsOpen(s.rows[id]) && id !in s.byName.Values
  {
    var failed := es + [Fail(id)];
    PossiblePrefix(INIT, failed, more);
    assert failed[..|es|] == es;
    Reachable(failed);
    AbortedStays(Run(INIT, failed), more, id);
    Reachable(failed + more);
    var s := Run(INIT, failed + more);
    assert RowAgrees(s.rows[id], s.pubs[id].phase);
    assert forall n :: n in s.byName ==> s.byName[n] != id;
  }

  // ---------------------------------------------------------------- shutdown

  ghost predicate IsLive(s: System, id: int) {
    id in s.pubs && Registered(s.pubs[id].phase)
  }

  lemma OnlyAddRegisters(s: System, e: Event, id: int)
    requires Enabled(s, e) && IsLive(Next(s, e), id) && !IsLive(s, id)
    ensures e == Add(id)
  {
  }

  /** Event `k`, from `i` on, is the add of session `id`. */
  ghost predicate AddedSince(es: seq<Event>, i: nat, id: int) {
    exists k :: i <= k < |es| && es[k] == Add(id)
  }

  lemma {:induction false} NewlyIsLive(es: seq<Event>, i: nat, id: int)
    requires Possible(INIT, es) && i <= |es| && Possible(INIT, es[..i])
    requires IsLive(Run(INIT, es), id) && !IsLive(Run(INIT, es[..i]), id)
    ensures AddedSince(es, i, id)
    decreases |es|
  {
    assert es[..|es|] == es;
    if i < |es| {
      var front, e := es[..|es| - 1], es[|es| - 1];
      if IsLive(Run(INIT, front), id) {
        assert front[..i] == es[..i];
        NewlyIsLive(front, i, id);
        var k :| i <= k < |front| && front[k] == Add(id);
        assert es[k] == Add(id);
      } else {
        OnlyAddRegisters(Run(INIT, front), e, id);
        assert es[|es| - 1] == Add(id);
      }
    }
  }

  /** Shutdown takes its snapshot after `i` events and tears down what it found. Once none of that is
      registered any more, what is registered was added after the snapshot; so no channel is live if
      and only if every publish that was added meanwhile has been removed too. */
  lemma ShutdownLeaves(es: seq<Event>, i: nat)
    requires Possible(INIT, es) && i <= |es| && Possible(INIT, es[..i])
    requires forall n :: n in Run(INIT, es[..i]).byName ==> !IsLive(Run(INIT, es), Run(INIT, es[..i]).byName[n])
    ensures forall n :: n in Run(INIT, es).byName ==> AddedSince(es, i, Run(INIT, es).byName[n])
    ensures Run(INIT, es).byName == map[]
            <==> forall k :: i <= k < |es| && es[k].Add? ==> !IsLive(Run(INIT, es), es[k].id)
  {
    Reachable(es);
    Reachable(es[..i]);
    var s, t := Run(INIT, es[..i]), Run(INIT, es);
    forall n | n in t.byName ensures AddedSince(es, i, t.byName[n]) {
      var id := t.byName[n];
      if IsLive(s, id) { assert s.byName[s.pubs[id].channelName] == id; }
      NewlyIsLive(es, i, id);
    }
    if n :| n in t.byName {
      var k :| i <= k < |es| && es[k] == Add(t.byName[n]);
      assert es[k].Add? && IsLive(t, es[k].id);
    }
  }

  /** A publish past its preparations can be added during all of that. */
  lemma LatePublish(s: System, e: Event, id: int)
    requires Enabled(s, Add(id)) && Enabled(s, e) && (e.TearDown? || e.Unregister? || e.CloseRow?)
    ensures Enabled(Next(s, e), Add(id))
    ensures s.pubs[id].channelName !in Next(s, e).byName ==> IsLive(Next(Next(s, e), Add(id)), id)
  {
  }
}
