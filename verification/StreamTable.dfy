/** The stream_sessions table and its three statements. */
module StreamTable {
  import opened Collections

  datatype Reason = Normal | Crashed | OrphanSwept

  /** ended_at and end_reason are separate nullable columns. */
  datatype Row = Row(channelID: int, startedAt: int, endedAt: Option<int>, endReason: Option<Reason>)

  type Rows = map<int, Row>

  predicate IsOpen(r: Row) {
    r.endedAt.None?
  }

  function Inserted(rows: Rows, id: int, channelID: int, startedAt: int): Rows {
    rows[id := Row(channelID, startedAt, None, None)]
  }

  /** UPDATE ... WHERE id = $1 AND ended_at IS NULL */
  function Ended(rows: Rows, id: int, at: int, reason: Reason): Rows {
    if id in rows && IsOpen(rows[id])
    then rows[id := rows[id].(endedAt := Some(at), endReason := Some(reason))]
    else rows
  }

  /** UPDATE ... WHERE ended_at IS NULL */
  function Swept(rows: Rows, at: int): Rows {
    map id | id in rows ::
      if IsOpen(rows[id]) then rows[id].(endedAt := Some(at), endReason := Some(OrphanSwept)) else rows[id]
  }

  class StreamSessions {
    var rows: Rows

    constructor (rows: Rows)
      ensures this.rows == rows
    {
      this.rows := rows;
    }

    /** `id` is the next value of the sequence; ids are never reused and start at 1. */
    method Create(id: int, channelID: int, startedAt: int) returns (row: Row)
      requires id > 0 && id !in rows
      modifies this
      ensures rows == Inserted(old(rows), id, channelID, startedAt)
      ensures rows.Keys == old(rows).Keys + {id} && forall k :: k in old(rows) ==> rows[k] == old(rows)[k]
      ensures row == rows[id] && row.channelID == channelID && row.startedAt == startedAt
      ensures row.endedAt == None && row.endReason == None
    {
      row := Row(channelID, startedAt, None, None);
      rows := rows[id := row];
    }

    /** `ok` says whether the statement reached the database. */
    method End(id: int, at: int, reason: Reason, ok: bool)
      modifies this
      ensures rows == if ok then Ended(old(rows), id, at, reason) else old(rows)
      ensures rows.Keys == old(rows).Keys && forall k :: k in rows && k != id ==> rows[k] == old(rows)[k]
      ensures id in rows ==>
                && rows[id].channelID == old(rows)[id].channelID && rows[id].startedAt == old(rows)[id].startedAt
                && (if ok && old(rows)[id].endedAt.None?
                    then rows[id].endedAt == Some(at) && rows[id].endReason == Some(reason)
                    else rows[id] == old(rows)[id])
    {
      if ok && id in rows && rows[id].endedAt.None? {
        rows := rows[id := rows[id].(endedAt := Some(at), endReason := Some(reason))];
      }
    }

    method MarkOpenOrphaned(at: int)
      modifies this
      ensures rows == Swept(old(rows), at)
      ensures rows.Keys == old(rows).Keys
      ensures forall k :: k in rows ==>
                && rows[k].channelID == old(rows)[k].channelID && rows[k].startedAt == old(rows)[k].startedAt
                && (if old(rows)[k].endedAt.None?
                    then rows[k].endedAt == Some(at) && rows[k].endReason == Some(OrphanSwept)
                    else rows[k] == old(rows)[k])
    {
      var was := rows;
      rows := map id | id in was ::
        if was[id].endedAt.None? then was[id].(endedAt := Some(at), endReason := Some(OrphanSwept)) else was[id];
      assert rows.Keys == Swept(was, at).Keys;
      assert forall id :: id in was ==> rows[id] == Swept(was, at)[id];
    }
  }
}
