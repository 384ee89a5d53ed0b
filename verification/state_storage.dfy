/** The rule_state table and its SQL statements (siem-server/state/state_storage.go). */
module State {
  import opened Clock
  import opened Wrappers
  import opened Rules

  /** The state_data of a threshold row. */
  datatype Accumulator = Acc(accumulated: real, count: nat, distinct: seq<string>)

  datatype StateData =
    | NoData
    | Accumulated(acc: Accumulator)
    | Progress(currentStep: int, stepTimes: seq<Time>, firstEvent: Event)

  datatype Row = Row(counter: int, firstSeen: Time, lastSeen: Time, data: StateData, expiresAt: Time)

  datatype RowId = RowId(rule: string, group: string)

  type Table = map<RowId, Row>

  function Cell(t: Table, id: RowId): Option<Row> {
    if id in t then Some(t[id]) else None
  }

  /** Table t' is t with the cell `id` replaced by `c` and no other cell touched. */
  ghost predicate Updated(t: Table, t': Table, id: RowId, c: Option<Row>) {
    && Cell(t', id) == c
    && forall other :: other != id ==> Cell(t', other) == Cell(t, other)
  }

  /** Both "expires_at < now" and "now.After(expires_at)". */
  predicate Expired(r: Row, now: Time) {
    r.expiresAt < now
  }

  /** What is left of a cell once an expired row has been removed. */
  function Live(c: Option<Row>, now: Time): Option<Row> {
    if c.Some? && Expired(c.value, now) then None else c
  }

  /** The tumbling-window upsert of IncrementCounter. */
  function Upserted(c: Option<Row>, now: Time, window: int): Row {
    if c.None? then Row(1, now, now, NoData, now + window)
    else if Expired(c.value, now) then
      Row(1, now, now, c.value.data, now + window)
    else c.value.(counter := c.value.counter + 1, lastSeen := now)
  }

  /** INSERT ... ON CONFLICT of SaveState: the stored first_seen survives a conflict. */
  function Overwritten(c: Option<Row>, row: Row): Row {
    if c.None? then row else row.(firstSeen := c.value.firstSeen)
  }

  class StateStorage {
    var rows: Table

    constructor ()
      ensures rows == map[]
    {
      rows := map[];
    }

    method GetState(id: RowId, now: Time) returns (r: Option<Row>)
      modifies this
      ensures r == Live(Cell(old(rows), id), now)
      ensures r == if id in old(rows) && old(rows)[id].expiresAt >= now then Some(old(rows)[id]) else None
      ensures Updated(old(rows), rows, id, r)
    {
      if id !in rows {
        return None;
      }
      var row := rows[id];
      if row.expiresAt < now {
        DeleteState(id);
        return None;
      }
      return Some(row);
    }

    method DeleteState(id: RowId)
      modifies this
      ensures Updated(old(rows), rows, id, None)
    {
      rows := rows - {id};
    }

    method SaveState(id: RowId, row: Row)
      modifies this
      ensures Updated(old(rows), rows, id, Some(Overwritten(Cell(old(rows), id), row)))
      ensures id in rows && rows[id] == row.(firstSeen := if id in old(rows) then old(rows)[id].firstSeen else row.firstSeen)
    {
      if id in rows {
        var stored := rows[id];
        rows := rows[id := Row(row.counter, stored.firstSeen, row.lastSeen, row.data, row.expiresAt)];
      } else {
        rows := rows[id := row];
      }
    }

    method IncrementCounter(id: RowId, window: int, now: Time) returns (st: Row)
      modifies this
      ensures st == Upserted(Cell(old(rows), id), now, window)
      ensures st.lastSeen == now && st.data == if id in old(rows) then old(rows)[id].data else NoData
      ensures id in old(rows) && old(rows)[id].expiresAt >= now ==>
                && st.counter == old(rows)[id].counter + 1
                && st.firstSeen == old(rows)[id].firstSeen && st.expiresAt == old(rows)[id].expiresAt
      ensures !(id in old(rows) && old(rows)[id].expiresAt >= now) ==>
                st.counter == 1 && st.firstSeen == now && st.expiresAt == now + window
      ensures Updated(old(rows), rows, id, Some(st))
    {
      if id !in rows {
        st := Row(1, now, now, NoData, now + window);
      } else {
        var stored := rows[id];
        var expired := stored.expiresAt < now;
        st := Row(
          if expired then 1 else stored.counter + 1,
          if expired then now else stored.firstSeen,
          now,
          stored.data,
          if expired then now + window else stored.expiresAt);
      }
      rows := rows[id := st];
    }

    /** The background sweep: every row keeps exactly what Live leaves of it. */
    method DeleteExpiredStates(now: Time)
      modifies this
      ensures forall id :: Cell(rows, id) == Live(Cell(old(rows), id), now)
      ensures forall id :: id in rows <==> id in old(rows) && old(rows)[id].expiresAt >= now
    {
      rows := map id | id in rows && !(rows[id].expiresAt < now) :: rows[id];
    }
  }
}
