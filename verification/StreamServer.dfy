/** The live-stream service as it is written: registry, sessions and handlers that update
    objects in place. Every effect is recorded as a step of StreamProtocol, so each method
    is a run of the protocol and inherits its theorems. */
module StreamServer {
  import opened Collections
  import opened StreamTable
  import opened StreamProtocol

  datatype LiveChannel = LiveChannel(channelName: string, title: string, startedAt: int)

  datatype Channel = Channel(id: int, name: string, title: string)

  datatype PublishError =
    EmptyKey | UnknownKey | CreateRowFailed | MkdirFailed | FFmpegFailed | EncoderFailed | AlreadyLive

  /** What became of the INSERT: it came back with a row, the row was made but the reply was
      lost, or nothing was made. OnPublish cannot tell the last two apart. */
  datatype Insert = Made(id: int) | ReplyLost(id: int) | NotMade

  type LocalStage = s: Stage | !s.Register? witness Mkdir

  /** What the world answers to one publish: the channel the key belongs to, the database, the
      first local step that fails, the two clock readings, and whether an update arrives. */
  datatype World = World(
    channel: Option<Channel>,
    row: Insert,
    broken: Option<LocalStage>,
    startedAt: int,
    lostAt: int,
    updateOk: bool)

  /** The once of a session, and how far the goroutine inside it has come. */
  datatype Progress =
    | NotCalled
    | Stopping(reason: Reason)   // waiting for ffmpeg
    | Removed(reason: Reason)    // no longer in the registry
    | Updated(reason: Reason)    // the row update was made, or failed

  class Session {
    const channelName: string
    const title: string
    const startedAt: int
    const dbRowID: int
    var once: Progress
    var done: bool  // doneCh is closed

    constructor (ch: Channel, startedAt: int, rowID: int)
      ensures channelName == ch.name && title == ch.title && this.startedAt == startedAt && dbRowID == rowID
      ensures once == NotCalled && !done
    {
      channelName, title, this.startedAt, dbRowID := ch.name, ch.title, startedAt, rowID;
      once, done := NotCalled, false;
    }

    function ToDTO(): LiveChannel {
      LiveChannel(channelName, title, startedAt)
    }
  }

  class LiveRegistry {
    var byName: map<string, Session>

    constructor ()
      ensures byName == map[]
    {
      byName := map[];
    }

    method Add(s: Session) returns (ok: bool)
      modifies this
      ensures ok == (s.channelName !in old(byName))
      ensures byName == if ok then old(byName)[s.channelName := s] else old(byName)
    {
      if s.channelName in byName {
        return false;
      }
      byName := byName[s.channelName := s];
      return true;
    }

    method Remove(name: string)
      modifies this
      ensures byName == old(byName) - {name}
    {
      byName := byName - {name};
    }

    method Get(name: string) returns (s: Option<Session>)
      ensures s == if name in byName then Some(byName[name]) else None
    {
      if name in byName { s := Some(byName[name]); } else { s := None; }
    }

    ghost predicate KeyedByName()
      reads this
    {
      forall n :: n in byName ==> byName[n].channelName == n
    }

    ghost predicate Lists(all: seq<Session>)
      reads this
    {
      && |all| == |byName|
      && (forall i :: 0 <= i < |all| ==> all[i] in byName.Values)
      && (forall n :: n in byName ==> byName[n] in all)
      && (forall i, j :: 0 <= i < j < |all| ==> all[i].channelName != all[j].channelName)
    }

    /** Every registered session once, in any order. */
    method Snapshot() returns (out: seq<Session>)
      requires KeyedByName()
      ensures Lists(out)
    {
      out := [];
      var rest := byName.Keys;
      while rest != {}
        invariant rest <= byName.Keys && |out| + |rest| == |byName|
        invariant forall i :: 0 <= i < |out| ==>
                    out[i] in byName.Values && out[i].channelName in byName.Keys - rest
        invariant forall n :: n in byName.Keys - rest ==> byName[n] in out
        invariant forall i, j :: 0 <= i < j < |out| ==> out[i].channelName != out[j].channelName
      {
        var n :| n in rest;
        rest := rest - {n};
        out := out + [byName[n]];
      }
    }

    lemma Projected(all: seq<Session>, out: seq<LiveChannel>)
      requires KeyedByName() && Lists(all) && |out| == |all|
      requires forall i :: 0 <= i < |all| ==> out[i] == all[i].ToDTO()
      ensures forall n :: n in byName ==> exists i :: 0 <= i < |out| && out[i].channelName == n
      ensures forall i :: 0 <= i < |out| ==>
                && out[i].channelName in byName
                && var s := byName[out[i].channelName];
                   out[i].title == s.title && out[i].startedAt == s.startedAt
      ensures forall i, j :: 0 <= i < j < |out| ==> out[i].channelName != out[j].channelName
    {
      forall n | n in byName ensures exists i :: 0 <= i < |out| && out[i].channelName == n {
        var i :| 0 <= i < |all| && all[i] == byName[n];
        assert out[i].channelName == n;
      }
    }
  }

  lemma Extend(trace: seq<Event>, e: Event)
    requires Possible(INIT, trace) && Enabled(Run(INIT, trace), e)
    ensures Possible(INIT, trace + [e]) && Run(INIT, trace + [e]) == Next(Run(INIT, trace), e)
  {
    assert (trace + [e])[..|trace|] == trace;
  }

  /** The steps before registry.add, up to the first that fails. */
  function Preparation(id: int, broken: Option<LocalStage>): seq<Event> {
    match broken
    case Some(Mkdir) => [Fail(id)]
    case Some(StartFFmpeg) => [Advance(id), Fail(id)]
    case Some(NewEncoder) => [Advance(id), Advance(id), Fail(id)]
    case None => [Advance(id), Advance(id), Advance(id)]
  }

  function PrepareSteps(id: int, ch: Channel, w: World): seq<Event> {
    [Create(id, ch.id, ch.name, w.startedAt)] + Preparation(id, w.broken)
  }

  /** The protocol steps of one OnPublish; `taken` says whether the channel is live already. */
  function PublishSteps(streamKey: string, w: World, taken: bool): seq<Event> {
    if streamKey == "" || w.channel.None? || w.row.NotMade? then []
    else
      var id, ch := w.row.id, w.channel.value;
      if w.row.ReplyLost? then [Create(id, ch.id, ch.name, w.startedAt), Fail(id)]
      else PrepareSteps(id, ch, w)
           + if w.broken.Some? then []
             else [Add(id)] + if taken then [CloseLoser(id, w.lostAt, w.updateOk)] else []
  }

  /** What the first call, or the one that took the once before, is doing after a call. */
  function Called(p: Progress, caller: Caller): Progress {
    if p.NotCalled? then Stopping(ReasonOf(caller)) else p
  }

  /** The steps that the goroutine inside the once still has to take. */
  function Remaining(id: int, p: Progress, at: int, ok: bool): seq<Event> {
    match p
    case Stopping(_) => [Unregister(id), CloseRow(id, at, ok)]
    case Removed(_) => [CloseRow(id, at, ok)]
    case _ => []
  }

  predicate PhaseFits(p: Progress, phase: Phase) {
    match p
    case NotCalled => phase.Live?
    case Stopping(r) => phase == Closing(r)
    case Removed(r) => phase == Unregistered(r)
    case Updated(r) => phase.Finished? && phase.reason == r
  }

  /** A session on its way out of the registry. */
  lemma Unregistering(s: System, x: Session)
    requires s.up && x.dbRowID in s.pubs && x.once.Stopping? && PhaseFits(x.once, s.pubs[x.dbRowID].phase)
    ensures Enabled(s, Unregister(x.dbRowID))
    ensures Next(s, Unregister(x.dbRowID))
         == s.(byName := s.byName - {s.pubs[x.dbRowID].channelName},
               pubs := s.pubs[x.dbRowID := s.pubs[x.dbRowID].(phase := Unregistered(x.once.reason))])
    ensures PhaseFits(Removed(x.once.reason), Unregistered(x.once.reason))
  {
  }

  /** Exactly the sessions of `all` from `i` on are registered. */
  ghost predicate StillIn(byName: map<string, Session>, all: seq<Session>, i: nat) {
    && i <= |all| && (forall n :: n in byName ==> byName[n] in all[i..])
    && forall j :: i <= j < |all| ==> all[j].channelName in byName && byName[all[j].channelName] == all[j]
  }

  lemma StillInNext(byName: map<string, Session>, all: seq<Session>, i: nat)
    requires StillIn(byName, all, i) && i < |all| && forall n :: n in byName ==> byName[n].channelName == n
    requires forall j, k :: 0 <= j < k < |all| ==> all[j].channelName != all[k].channelName
    ensures StillIn(byName - {all[i].channelName}, all, i + 1)
  {
    assert all[i..] == [all[i]] + all[i + 1..];
  }

  lemma StillInNow(byName: map<string, Session>, all: seq<Session>, i: nat)
    requires StillIn(byName, all, i) && i < |all|
    ensures all[i].channelName in byName && byName[all[i].channelName] == all[i]
  {
  }

  class Service {
    const registry: LiveRegistry
    const q: StreamSessions
    ghost var trace: seq<Event>        // every protocol step so far, earlier processes included
    ghost var sys: System              // the protocol state it leads to
    ghost var sessions: set<Session>   // the sessions of this process

    ghost predicate Tracks(x: Session)
      reads this, x
    {
      && x.dbRowID in sys.pubs && sys.pubs[x.dbRowID].channelName == x.channelName
      && PhaseFits(x.once, sys.pubs[x.dbRowID].phase)
      && (x.done ==> x.once.Updated?)
    }

    /** The objects hold exactly what the protocol state says. */
    ghost predicate Agrees()
      reads this, registry, q, sessions
    {
      && q.rows == sys.rows
      && registry.byName.Keys == sys.byName.Keys
      && (forall n :: n in registry.byName ==>
            registry.byName[n] in sessions && registry.byName[n].dbRowID == sys.byName[n])
      && (forall x :: x in sessions ==> Tracks(x))
      && (forall x, y :: x in sessions && y in sessions && x.dbRowID == y.dbRowID ==> x == y)
    }

    ghost predicate Valid()
      reads this, registry, q, sessions
    {
      Agrees() && Possible(INIT, trace) && sys == Run(INIT, trace)
    }

    /** A new process on the database that earlier ones left behind. */
    constructor (q: StreamSessions, ghost past: seq<Event>)
      requires Possible(INIT, past) && !Run(INIT, past).up && q.rows == Run(INIT, past).rows
      ensures Valid() && trace == past && sessions == {} && this.q == q && fresh(registry)
    {
      registry := new LiveRegistry();
      this.q := q;
      trace, sys, sessions := past, Run(INIT, past), {};
      new;
      Reachable(past);
      assert sys.byName == map[];
    }

    lemma SelfRegistered(s: Session)
      requires Valid() && s in sessions && Registered(sys.pubs[s.dbRowID].phase)
      ensures s.channelName in sys.byName && sys.byName[s.channelName] == s.dbRowID
      ensures registry.byName[s.channelName] == s
    {
      Reachable(trace);
    }

    lemma RowStillOpen(id: int)
      requires Valid() && id in sys.pubs && ClosedWith(sys.pubs[id].phase).None?
      ensures id in q.rows && IsOpen(q.rows[id])
    {
      Reachable(trace);
      assert RowAgrees(sys.rows[id], sys.pubs[id].phase);
    }

    lemma RegisteredKeyed()
      requires Valid()
      ensures registry.KeyedByName()
      ensures forall n :: n in registry.byName ==>
                registry.byName[n] in sessions && !registry.byName[n].done
    {
      Reachable(trace);
    }

    /** The table has one row more than before, for this channel and start time. */
    ghost predicate NewRow(was: Rows, id: int, channelID: int, startedAt: int)
      reads q
    {
      && q.rows.Keys == was.Keys + {id} && id !in was && (forall k :: k in was ==> q.rows[k] == was[k])
      && q.rows[id].channelID == channelID && q.rows[id].startedAt == startedAt
    }

    // -------------------------------------------------------------- atomic steps

    /** Takes the protocol step that the objects have just made. */
    ghost method Record(e: Event)
      requires Possible(INIT, trace) && sys == Run(INIT, trace) && Enabled(sys, e)
      modifies this`trace, this`sys
      ensures trace == old(trace) + [e] && sys == Next(old(sys), e)
      ensures Possible(INIT, trace) && sys == Run(INIT, trace)
    {
      Extend(trace, e);
      trace, sys := trace + [e], Next(sys, e);
    }

    method CreateRow(id: int, ch: Channel, now: int)
      requires Valid() && sys.up && id > 0 && id !in q.rows
      modifies this`trace, this`sys, q
      ensures Valid() && sys.up && trace == old(trace) + [Create(id, ch.id, ch.name, now)]
      ensures id in sys.pubs && sys.pubs[id] == Publish(ch.name, Preparing(Mkdir))
      ensures NewRow(old(q.rows), id, ch.id, now) && q.rows[id].endedAt == None && q.rows[id].endReason == None
    {
      Reachable(trace);
      var _ := q.Create(id, ch.id, now);
      Record(Create(id, ch.id, ch.name, now));
    }

    /** mkdir, starting ffmpeg, or writing the FLV header. */
    ghost method Prepare(id: int, ok: bool)
      requires Valid() && sys.up && id in sys.pubs
      requires sys.pubs[id].phase.Preparing? && !sys.pubs[id].phase.stage.Register?
      modifies this`trace, this`sys
      ensures Valid() && sys.up && trace == old(trace) + [if ok then Advance(id) else Fail(id)]
      ensures id in sys.pubs && sys.pubs[id].channelName == old(sys).pubs[id].channelName
      ensures ok ==> sys.pubs[id].phase == Preparing(NextStage(old(sys).pubs[id].phase.stage))
    {
      Record(if ok then Advance(id) else Fail(id));
    }

    ghost method RecordAdd(s: Session, ok: bool)
      requires Possible(INIT, trace) && sys == Run(INIT, trace) && sys.up
      requires s.dbRowID in sys.pubs && sys.pubs[s.dbRowID] == Publish(s.channelName, Preparing(Register))
      requires ok == (s.channelName !in sys.byName)
      modifies this
      ensures Possible(INIT, trace) && sys == Run(INIT, trace) && sys.up
      ensures trace == old(trace) + [Add(s.dbRowID)]
      ensures sessions == if ok then old(sessions) + {s} else old(sessions)
      ensures sys.rows == old(sys).rows
      ensures sys.byName == if ok then old(sys).byName[s.channelName := s.dbRowID] else old(sys).byName
      ensures sys.pubs == old(sys).pubs[s.dbRowID := Publish(s.channelName, if ok then Live else LosingRace)]
    {
      Record(Add(s.dbRowID));
      if ok { sessions := sessions + {s}; }
    }

    method AddSession(s: Session) returns (ok: bool)
      requires Valid() && sys.up && s !in sessions && s.once == NotCalled && !s.done
      requires s.dbRowID in sys.pubs && sys.pubs[s.dbRowID] == Publish(s.channelName, Preparing(Register))
      modifies this, registry
      ensures Valid() && sys.up && trace == old(trace) + [Add(s.dbRowID)]
      ensures ok == (s.channelName !in old(registry.byName))
      ensures registry.byName == if ok then old(registry.byName)[s.channelName := s] else old(registry.byName)
      ensures sessions == if ok then old(sessions) + {s} else old(sessions)
      ensures !ok ==> s.dbRowID in sys.pubs && sys.pubs[s.dbRowID].phase.LosingRace?
    {
      hide Possible;
      hide Run;
      assert forall x :: x in sessions ==> x.dbRowID != s.dbRowID;
      ok := registry.Add(s);
      RecordAdd(s, ok);
    }

    method CloseLoserRow(id: int, now: int, ok: bool)
      requires Valid() && sys.up && id in sys.pubs && sys.pubs[id].phase.LosingRace?
      modifies this`trace, this`sys, q
      ensures Valid() && sys.up && trace == old(trace) + [CloseLoser(id, now, ok)]
      ensures q.rows.Keys == old(q.rows).Keys && id in q.rows
      ensures forall k :: k in q.rows && k != id ==> q.rows[k] == old(q.rows)[k]
      ensures q.rows[id].channelID == old(q.rows)[id].channelID && q.rows[id].startedAt == old(q.rows)[id].startedAt
      ensures if ok then q.rows[id].endedAt == Some(now) && q.rows[id].endReason == Some(OrphanSwept)
              else q.rows[id] == old(q.rows)[id]
    {
      RowStillOpen(id);
      assert forall x :: x in sessions ==> x.dbRowID != id;
      q.End(id, now, OrphanSwept, ok);
      Record(CloseLoser(id, now, ok));
    }

    method TakeOnce(s: Session, caller: Caller)
      requires Valid() && sys.up && s in sessions
      modifies this`trace, this`sys, s
      ensures Valid() && sys.up && trace == old(trace) + [TearDown(s.dbRowID, caller)]
      ensures s.once == Called(old(s.once), caller) && s.done == old(s.done)
    {
      Record(TearDown(s.dbRowID, caller));
      if s.once.NotCalled? {
        s.once := Stopping(ReasonOf(caller));
      }
    }

    /** The entry removed under the session's channel name is the session itself. */
    method UnregisterSession(s: Session)
      requires Valid() && sys.up && s in sessions && s.once.Stopping?
      modifies this`trace, this`sys, registry, s`once
      ensures Valid() && sys.up && trace == old(trace) + [Unregister(s.dbRowID)]
      ensures s.channelName in old(registry.byName) && old(registry.byName)[s.channelName] == s
      ensures registry.byName == old(registry.byName) - {s.channelName}
      ensures s.once == Removed(old(s.once).reason)
    {
      SelfRegistered(s);
      Unregistering(sys, s);
      hide Run;
      hide Possible;
      hide Next;
      hide PhaseFits;
      registry.Remove(s.channelName);
      Record(Unregister(s.dbRowID));
      s.once := Removed(s.once.reason);
    }

    /** The row is still open here, so the guarded update always takes effect. */
    method CloseSessionRow(s: Session, now: int, ok: bool)
      requires Valid() && sys.up && s in sessions && s.once.Removed?
      modifies this`trace, this`sys, q, s`once
      ensures Valid() && sys.up && trace == old(trace) + [CloseRow(s.dbRowID, now, ok)]
      ensures s.once == Updated(old(s.once).reason)
      ensures q.rows == if ok then Ended(old(q.rows), s.dbRowID, now, s.once.reason) else old(q.rows)
      ensures s.dbRowID in q.rows
      ensures ok ==> q.rows[s.dbRowID].endReason == Some(s.once.reason) && q.rows[s.dbRowID].endedAt == Some(now)
    {
      ghost var id := s.dbRowID;
      RowStillOpen(id);
      hide Run;
      hide Possible;
      q.End(s.dbRowID, now, s.once.reason, ok);
      Record(CloseRow(id, now, ok));
      s.once := Updated(s.once.reason);
    }

    // -------------------------------------------------------------- the service

    /** Returns an error unless the sweep and the state directory both work. */
    method RecoverOnBoot(now: int, sweepOk: bool, dirOk: bool) returns (ok: bool)
      requires Valid() && !sys.up && sessions == {}
      modifies this`trace, this`sys, q
      ensures Valid() && ok == sys.up == (sweepOk && dirOk)
      ensures trace == old(trace) + [Recover(now, sweepOk, dirOk)]
      ensures ok ==> OpenRows(sys) == {}
      ensures q.rows.Keys == old(q.rows).Keys
      ensures forall k :: k in q.rows ==>
                var r, was := q.rows[k], old(q.rows)[k];
                if sweepOk && was.endedAt.None?
                then r.endedAt == Some(now) && r.endReason == Some(OrphanSwept)
                     && r.channelID == was.channelID && r.startedAt == was.startedAt
                else r == was
    {
      RecoverClosesAll(trace, now, dirOk);
      if sweepOk {
        q.MarkOpenOrphaned(now);
      }
      Record(Recover(now, sweepOk, dirOk));
      ok := sweepOk && dirOk;
    }

    /** The database makes the row, but OnPublish gets an error instead of its id. */
    method LoseReply(id: int, ch: Channel, now: int)
      requires Valid() && sys.up && id > 0 && id !in q.rows
      modifies this`trace, this`sys, q
      ensures Valid() && sys.up && trace == old(trace) + [Create(id, ch.id, ch.name, now), Fail(id)]
      ensures NewRow(old(q.rows), id, ch.id, now) && q.rows[id].endedAt == None && q.rows[id].endReason == None
    {
      CreateRow(id, ch, now);
      Prepare(id, false);
    }

    /** OnPublish up to the point where the session object is built. */
    method PreparePublish(id: int, ch: Channel, w: World) returns (err: Option<PublishError>)
      requires Valid() && sys.up && id > 0 && id !in q.rows
      modifies this`trace, this`sys, q
      ensures Valid() && sys.up
      ensures trace == old(trace) + PrepareSteps(id, ch, w)
      ensures err == match w.broken
                     case None => None
                     case Some(Mkdir) => Some(MkdirFailed)
                     case Some(StartFFmpeg) => Some(FFmpegFailed)
                     case Some(NewEncoder) => Some(EncoderFailed)
      ensures NewRow(old(q.rows), id, ch.id, w.startedAt) && q.rows[id].endedAt == None && q.rows[id].endReason == None
      ensures err.None? ==> id in sys.pubs && sys.pubs[id] == Publish(ch.name, Preparing(Register))
    {
      CreateRow(id, ch, w.startedAt);
      Prepare(id, w.broken != Some(Mkdir));
      if w.broken == Some(Mkdir) {
        return Some(MkdirFailed);
      }
      Prepare(id, w.broken != Some(StartFFmpeg));
      if w.broken == Some(StartFFmpeg) {
        return Some(FFmpegFailed);
      }
      Prepare(id, w.broken != Some(NewEncoder));
      if w.broken == Some(NewEncoder) {
        return Some(EncoderFailed);
      }
      return None;
    }

    /** The end of OnPublish: registry.add, or the loser's way out. */
    method RegisterPublish(s: Session, w: World) returns (err: Option<PublishError>)
      requires Valid() && sys.up && s !in sessions && s.once == NotCalled && !s.done
      requires s.dbRowID in sys.pubs && sys.pubs[s.dbRowID] == Publish(s.channelName, Preparing(Register))
      modifies this, registry, q
      ensures Valid() && sys.up
      ensures err == if s.channelName in old(registry.byName) then Some(AlreadyLive) else None
      ensures trace == old(trace) + [Add(s.dbRowID)]
                       + if err.Some? then [CloseLoser(s.dbRowID, w.lostAt, w.updateOk)] else []
      ensures registry.byName == if err.None? then old(registry.byName)[s.channelName := s] else old(registry.byName)
      ensures sessions == if err.None? then old(sessions) + {s} else old(sessions)
      ensures q.rows.Keys == old(q.rows).Keys && s.dbRowID in q.rows
      ensures forall k :: k in q.rows && k != s.dbRowID ==> q.rows[k] == old(q.rows)[k]
      ensures var r, was := q.rows[s.dbRowID], old(q.rows)[s.dbRowID];
              && r.channelID == was.channelID && r.startedAt == was.startedAt
              && (if err.Some? && w.updateOk then r.endedAt == Some(w.lostAt) && r.endReason == Some(OrphanSwept)
                  else r == was)
    {
      RowStillOpen(s.dbRowID);
      err := None;
      var added := AddSession(s);
      if !added {
        CloseLoserRow(s.dbRowID, w.lostAt, w.updateOk);
        err := Some(AlreadyLive);
      }
    }

    /** A publish that succeeds registers a new session; one that fails leaves the registry alone;
        each is exactly the run of protocol steps that PublishSteps lists. */
    method OnPublish(streamKey: string, w: World) returns (sess: Session?, err: Option<PublishError>)
      requires Valid() && sys.up
      requires !w.row.NotMade? ==> w.row.id > 0 && w.row.id !in q.rows
      modifies this, registry, q
      ensures Valid() && sys.up && (sess != null <==> err.None?)
      ensures var taken := w.channel.Some? && w.channel.value.name in old(registry.byName);
              && trace == old(trace) + PublishSteps(streamKey, w, taken)
              && err == if streamKey == "" then Some(EmptyKey)
                        else if w.channel.None? then Some(UnknownKey)
                        else if !w.row.Made? then Some(CreateRowFailed)
                        else match w.broken
                             case Some(Mkdir) => Some(MkdirFailed)
                             case Some(StartFFmpeg) => Some(FFmpegFailed)
                             case Some(NewEncoder) => Some(EncoderFailed)
                             case None => if taken then Some(AlreadyLive) else None
      ensures if streamKey == "" || w.channel.None? || w.row.NotMade? then q.rows == old(q.rows)
              else
                && NewRow(old(q.rows), w.row.id, w.channel.value.id, w.startedAt)
                && var r := q.rows[w.row.id];
                   if err == Some(AlreadyLive) && w.updateOk
                   then r.endedAt == Some(w.lostAt) && r.endReason == Some(OrphanSwept)
                   else r.endedAt == None && r.endReason == None
      ensures sess == null ==> registry.byName == old(registry.byName) && sessions == old(sessions)
      ensures sess != null ==>
                && fresh(sess) && sess.once == NotCalled && sessions == old(sessions) + {sess}
                && sess.channelName == w.channel.value.name && sess.title == w.channel.value.title
                && sess.startedAt == w.startedAt && sess.dbRowID == w.row.id
                && sess.channelName !in old(registry.byName)
                && registry.byName == old(registry.byName)[sess.channelName := sess]
    {
      hide Agrees;
      hide Possible;
      hide Run;
      hide PrepareSteps;
      sess, err := null, None;
      if streamKey == "" {
        return null, Some(EmptyKey);
      }
      if w.channel.None? {
        return null, Some(UnknownKey);
      }
      if w.row.NotMade? {
        return null, Some(CreateRowFailed);
      }
      var ch, id := w.channel.value, w.row.id;
      if w.row.ReplyLost? {
        LoseReply(id, ch, w.startedAt);
        return null, Some(CreateRowFailed);
      }
      err := PreparePublish(id, ch, w);
      if err.Some? {
        return;
      }
      var s := new Session(ch, w.startedAt, id);
      err := RegisterPublish(s, w);
      sess := if err.None? then s else null;
    }

    /** close(s.doneCh) */
    method MarkDone(s: Session)
      requires Valid() && s in sessions && s.once.Updated?
      modifies s`done
      ensures Valid() && s.done
    {
      s.done := true;
    }

    /** What is left to do inside the once, when ffmpeg has exited: by the caller itself if it took
        the once, by the goroutine that did while this caller waits. */
    method FinishTearDown(s: Session, now: int, updateOk: bool)
      requires Valid() && sys.up && s in sessions && !s.once.NotCalled? && !s.done
      modifies this`trace, this`sys, registry, q, s
      ensures Valid() && sys.up && s.done && s.once == Updated(old(s.once).reason)
      ensures trace == old(trace) + Remaining(s.dbRowID, old(s.once), now, updateOk)
      ensures old(s.once).Stopping? ==>
                s.channelName in old(registry.byName) && old(registry.byName)[s.channelName] == s
      ensures registry.byName == if old(s.once).Stopping? then old(registry.byName) - {s.channelName}
                                 else old(registry.byName)
      ensures q.rows == if updateOk && !old(s.once).Updated? then Ended(old(q.rows), s.dbRowID, now, s.once.reason)
                        else old(q.rows)
      ensures updateOk && !old(s.once).Updated? ==>
                && s.dbRowID in q.rows
                && q.rows[s.dbRowID].endReason == Some(s.once.reason) && q.rows[s.dbRowID].endedAt == Some(now)
    {
      hide Agrees;
      hide Possible;
      hide Run;
      if s.once.Stopping? {
        UnregisterSession(s);
      }
      if s.once.Removed? {
        CloseSessionRow(s, now, updateOk);
      }
      MarkDone(s);
    }

    lemma DoneIsUpdated(s: Session)
      requires Valid() && s in sessions
      ensures s.done ==> s.once.Updated?
    {
      assert Tracks(s);
    }

    /** The first caller takes the once, with its reason. Every caller returns when the teardown is
        complete; to one that finds it complete nothing changes. */
    method TearDownSession(s: Session, caller: Caller, now: int, updateOk: bool)
      requires Valid() && sys.up && s in sessions
      modifies this`trace, this`sys, registry, q, s
      ensures Valid() && sys.up && s.done && s.once.Updated?
      ensures if old(s.once).NotCalled?
              then
                && (s.once.reason == Crashed <==> caller == Watchdog(true))
                && (s.once.reason == Normal <==> caller == Watchdog(false) || caller == Disconnect)
                && (s.once.reason == OrphanSwept <==> caller == Shutdown)
              else s.once.reason == old(s.once).reason
      ensures trace == old(trace) + [TearDown(s.dbRowID, caller)]
                       + if old(s.done) then []
                         else Remaining(s.dbRowID, if old(s.once).NotCalled? then Stopping(s.once.reason)
                                                   else old(s.once), now, updateOk)
      ensures old(s.once).NotCalled? || old(s.once).Stopping? ==>
                s.channelName in old(registry.byName) && old(registry.byName)[s.channelName] == s
      ensures registry.byName == if old(s.once).NotCalled? || old(s.once).Stopping?
                                 then old(registry.byName) - {s.channelName}
                                 else old(registry.byName)
      ensures q.rows == if updateOk && !old(s.once).Updated? then Ended(old(q.rows), s.dbRowID, now, s.once.reason)
                        else old(q.rows)
      ensures updateOk && !old(s.once).Updated? ==>
                && s.dbRowID in q.rows
                && q.rows[s.dbRowID].endReason == Some(s.once.reason) && q.rows[s.dbRowID].endedAt == Some(now)
    {
      DoneIsUpdated(s);
      hide Agrees;
      hide Possible;
      hide Run;
      TakeOnce(s, caller);
      if !s.done {
        FinishTearDown(s, now, updateOk);
      }
    }

    /** The goroutine that waits for ffmpeg to exit: it takes an error for a crash. */
    method Watch(s: Session, waitErr: bool, now: int, updateOk: bool)
      requires Valid() && sys.up && s in sessions
      modifies this`trace, this`sys, registry, q, s
      ensures Valid() && sys.up && s.done
      ensures old(s.once).NotCalled? && updateOk ==>
                && s.dbRowID in q.rows && q.rows[s.dbRowID].endedAt == Some(now)
                && q.rows[s.dbRowID].endReason == Some(if waitErr then Crashed else Normal)
      ensures old(s.once).NotCalled? ==> registry.byName == old(registry.byName) - {s.channelName}
    {
      TearDownSession(s, Watchdog(waitErr), now, updateOk);
    }

    /** h.sess is nil when the publish never got registered. */
    method OnClose(sess: Session?, now: int, updateOk: bool)
      requires Valid() && (sess != null ==> sys.up && sess in sessions)
      modifies this`trace, this`sys, registry, q, sess
      ensures Valid() && (sess != null ==> sess.done)
      ensures trace == old(trace)
                       + if sess == null then []
                         else [TearDown(sess.dbRowID, Disconnect)]
                              + if old(sess.done) then []
                                else Remaining(sess.dbRowID, if old(sess.once).NotCalled? then Stopping(Normal)
                                                             else old(sess.once), now, updateOk)
      ensures sess != null && old(sess.once).NotCalled? && updateOk ==>
                && sess.dbRowID in q.rows
                && q.rows[sess.dbRowID].endReason == Some(Normal) && q.rows[sess.dbRowID].endedAt == Some(now)
      ensures sess == null ==> q.rows == old(q.rows) && registry.byName == old(registry.byName)
    {
      if sess != null {
        TearDownSession(sess, Disconnect, now, updateOk);
      }
    }

    /** Torn down, with the reason of the caller that took the once when it stood at `p`. */
    ghost predicate ShutDown(x: Session, p: Progress, now: int, fails: set<int>)
      reads this, q, x
    {
      && x.done && x.once == Updated(if p.NotCalled? then OrphanSwept else p.reason)
      && (x.dbRowID !in fails ==>
            && x.dbRowID in q.rows
            && q.rows[x.dbRowID].endReason == Some(x.once.reason) && q.rows[x.dbRowID].endedAt == Some(now))
    }

    /** Who is registered has not been removed yet. */
    lemma RegisteredProgress(s: Session)
      requires Valid() && s.channelName in registry.byName && registry.byName[s.channelName] == s
      ensures s in sessions && (s.once.NotCalled? || s.once.Stopping?) && !s.done
    {
      Reachable(trace);
      assert Tracks(s);
    }

    method ShutdownOne(s: Session, now: int, fails: set<int>)
      requires Valid() && sys.up && s.channelName in registry.byName && registry.byName[s.channelName] == s
      modifies this`trace, this`sys, registry, q, s
      ensures Valid() && sys.up && ShutDown(s, old(s.once), now, fails)
      ensures registry.byName == old(registry.byName) - {s.channelName}
      ensures forall x, p :: x in sessions && x != s && old(ShutDown(x, p, now, fails)) ==> ShutDown(x, p, now, fails)
    {
      RegisteredProgress(s);
      TearDownSession(s, Shutdown, now, s.dbRowID !in fails);
    }

    ghost predicate DoneSoFar(all: seq<Session>, i: nat, was: seq<Progress>, now: int, fails: set<int>)
      reads this, q, all
    {
      i <= |all| == |was| && forall j :: 0 <= j < i ==> ShutDown(all[j], was[j], now, fails)
    }

    /** The first `i` sessions of the snapshot are shut down, the others as they were. */
    ghost predicate Progressed(all: seq<Session>, i: nat, was: seq<Progress>, now: int, fails: set<int>)
      reads this, registry, q, all
    {
      && DoneSoFar(all, i, was, now, fails) && StillIn(registry.byName, all, i)
      && forall j :: i <= j < |all| ==> all[j].once == was[j]
    }

    /** Sessions of this process with different names. */
    ghost predicate AllApart(all: seq<Session>)
      reads this
    {
      && (forall j :: 0 <= j < |all| ==> all[j] in sessions)
      && (forall j, k :: 0 <= j < k < |all| ==> all[j].channelName != all[k].channelName)
    }

    method ShutdownNext(all: seq<Session>, i: nat, ghost was: seq<Progress>, now: int, fails: set<int>)
      requires Valid() && sys.up && i < |all| && Progressed(all, i, was, now, fails)
      requires AllApart(all)
      modifies this`trace, this`sys, registry, q, all[i]
      ensures Valid() && sys.up && Progressed(all, i + 1, was, now, fails)
    {
      RegisteredKeyed();
      StillInNext(registry.byName, all, i);
      StillInNow(registry.byName, all, i);
      hide Valid;
      hide ShutDown;
      hide StillIn;
      ShutdownOne(all[i], now, fails);
    }

    ghost function Onces(all: seq<Session>): (ps: seq<Progress>)
      reads all
      ensures |ps| == |all| && forall i :: 0 <= i < |all| ==> ps[i] == all[i].once
    {
      if all == [] then [] else Onces(all[..|all| - 1]) + [all[|all| - 1].once]
    }

    lemma AllToDo(all: seq<Session>, now: int, fails: set<int>)
      requires registry.KeyedByName() && registry.Lists(all)
      ensures Progressed(all, 0, Onces(all), now, fails)
    {
    }

    lemma AllDone(all: seq<Session>, was: seq<Progress>, now: int, fails: set<int>)
      requires |was| == |all| && Progressed(all, |all|, was, now, fails)
      ensures registry.byName == map[] && forall j :: 0 <= j < |all| ==> ShutDown(all[j], was[j], now, fails)
    {
    }

    method ShutdownEach(all: seq<Session>, ghost was: seq<Progress>, now: int, fails: set<int>)
      requires Valid() && sys.up && |all| == |was| && Progressed(all, 0, was, now, fails) && AllApart(all)
      modifies this`trace, this`sys, registry, q, all
      ensures Valid() && sys.up && registry.byName == map[]
      ensures forall j :: 0 <= j < |all| ==> ShutDown(all[j], was[j], now, fails)
    {
      hide Valid;
      hide Progressed;
      hide ShutDown;
      for i := 0 to |all|
        invariant Valid() && sys.up && sessions == old(sessions)
        invariant Progressed(all, i, was, now, fails)
      {
        ShutdownNext(all, i, was, now, fails);
      }
      AllDone(all, was, now, fails);
    }

    /** Shutdown leaves no channel live. A row it could update carries orphan_swept, or the reason of
        the caller whose teardown was under way and which shutdown waited for. */
    method ShutdownLive(now: int, fails: set<int>)
      requires Valid() && sys.up
      modifies this`trace, this`sys, registry, q, sessions
      ensures Valid() && sys.up
      ensures registry.byName == map[]
      ensures forall n :: n in old(registry.byName) ==>
                var s := old(registry.byName)[n]; ShutDown(s, old(s.once), now, fails)
    {
      RegisteredKeyed();
      var all := registry.Snapshot();
      ghost var names, was := registry.byName, Onces(all);
      AllToDo(all, now, fails);
      hide Valid;
      hide Progressed;
      hide ShutDown;
      ShutdownEach(all, was, now, fails);
      forall n | n in names
        ensures ShutDown(names[n], old(names[n].once), now, fails)
      {
        var j :| 0 <= j < |all| && all[j] == names[n];
        assert was[j] == old(all[j].once);
      }
    }

    /** One entry per registered channel. */
    method ListLive() returns (out: seq<LiveChannel>)
      requires Valid()
      ensures |out| == |registry.byName|
      ensures forall n :: n in registry.byName ==> exists i :: 0 <= i < |out| && out[i].channelName == n
      ensures forall i :: 0 <= i < |out| ==>
                && out[i].channelName in registry.byName
                && var s := registry.byName[out[i].channelName];
                   out[i].title == s.title && out[i].startedAt == s.startedAt
      ensures forall i, j :: 0 <= i < j < |out| ==> out[i].channelName != out[j].channelName
    {
      RegisteredKeyed();
      hide Valid;
      var all := registry.Snapshot();
      out := [];
      for i := 0 to |all|
        invariant |out| == i && forall j :: 0 <= j < i ==> out[j] == all[j].ToDTO()
      {
        out := out + [all[i].ToDTO()];
      }
      registry.Projected(all, out);
    }
  }
}
