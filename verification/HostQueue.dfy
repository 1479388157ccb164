/**
 One host's view of the task table: its rows in the order their tasks were created, the row the
 server considers next, and the task it names to the host's agent.
 */
module HostQueue {
  import opened Options

  type TaskId = int

  datatype RowState = Pending | Running | Done | Failed | Cancelled

  /** `runnable` says whether the task still carries the image and partition its work needs. */
  datatype Row = Row(id: TaskId, multicast: bool, runnable: bool, state: RowState)

  predicate Active(row: Row) {
    row.state == Pending || row.state == Running
  }

  function FirstIn(rows: seq<Row>, state: RowState): (row: Option<Row>)
    ensures row.Some? ==> row.value in rows && row.value.state == state
    ensures row.None? <==> forall r :: r in rows ==> r.state != state
  {
    if rows == [] then None
    else if rows[0].state == state then Some(rows[0])
    else FirstIn(rows[1..], state)
  }

  /** Running rows come before pending ones; among equals the oldest wins. */
  function GetNext(rows: seq<Row>): Option<Row> {
    var running := FirstIn(rows, Running);
    if running.Some? then running else FirstIn(rows, Pending)
  }

  /** A multicast reaches a host only once its session has started the host's row. */
  predicate Dispatchable(row: Row) {
    row.multicast ==> row.state == Running
  }

  function SetState(rows: seq<Row>, id: TaskId, from: set<RowState>, to: RowState): (after: seq<Row>)
    ensures |after| == |rows|
    ensures forall i :: 0 <= i < |rows| ==>
      after[i] == if rows[i].id == id && rows[i].state in from then rows[i].(state := to) else rows[i]
  {
    if rows == [] then []
    else
      [if rows[0].id == id && rows[0].state in from then rows[0].(state := to) else rows[0]]
      + SetState(rows[1..], id, from, to)
  }

  function MarkFailed(rows: seq<Row>, id: TaskId): seq<Row> {
    SetState(rows, id, {Pending, Running}, Failed)
  }

  function ActiveRows(rows: seq<Row>): nat {
    if rows == [] then 0 else (if Active(rows[0]) then 1 else 0) + ActiveRows(rows[1..])
  }

  lemma MarkFailedNeverAdds(rows: seq<Row>, id: TaskId)
    ensures ActiveRows(MarkFailed(rows, id)) <= ActiveRows(rows)
  {
    if rows != [] {
      MarkFailedNeverAdds(rows[1..], id);
      assert MarkFailed(rows, id)[1..] == MarkFailed(rows[1..], id);
    }
  }

  lemma MarkFailedRemoves(rows: seq<Row>, row: Row)
    requires row in rows && Active(row)
    ensures ActiveRows(MarkFailed(rows, row.id)) < ActiveRows(rows)
  {
    assert MarkFailed(rows, row.id)[1..] == MarkFailed(rows[1..], row.id);
    if rows[0] == row {
      MarkFailedNeverAdds(rows[1..], row.id);
    } else {
      MarkFailedRemoves(rows[1..], row);
    }
  }

  datatype LookedUp = LookedUp(rows: seq<Row>, current: Option<TaskId>)

  /** What the server finds for the host: tasks it could never run are failed on the way. */
  function Lookup(rows: seq<Row>): (found: LookedUp)
    ensures found.current.None? ==> Blocked(found.rows)
    decreases ActiveRows(rows)
  {
    var next := GetNext(rows);
    if next.None? || !Dispatchable(next.value) then LookedUp(rows, None)
    else if next.value.runnable then LookedUp(rows, Some(next.value.id))
    else
      MarkFailedRemoves(rows, next.value);
      Lookup(MarkFailed(rows, next.value.id))
  }

  function Current(rows: seq<Row>): Option<TaskId> {
    Lookup(rows).current
  }

  /** Nothing to hand out: either no row is active, or a multicast waiting for its session is next. */
  predicate Blocked(rows: seq<Row>) {
    var next := GetNext(rows);
    next.Some? ==> !Dispatchable(next.value)
  }

  lemma BlockedHasNoCurrent(rows: seq<Row>)
    requires Blocked(rows)
    ensures Current(rows) == None && Lookup(rows).rows == rows
  {
  }

  /** Looking twice finds the same task, and the second look fails nothing. */
  lemma {:induction false} LookupIsStable(rows: seq<Row>)
    ensures Lookup(Lookup(rows).rows) == Lookup(rows)
    decreases ActiveRows(rows)
  {
    var next := GetNext(rows);
    if next.Some? && Dispatchable(next.value) && !next.value.runnable {
      MarkFailedRemoves(rows, next.value);
      LookupIsStable(MarkFailed(rows, next.value.id));
    }
  }

  /** The named task is an active row of the host that it is able to run. */
  lemma {:induction false} CurrentIsActive(rows: seq<Row>)
    ensures Current(rows).Some? ==>
      exists row :: row in rows && row.id == Current(rows).value && Active(row) && row.runnable
        && Dispatchable(row)
    decreases ActiveRows(rows)
  {
    var next := GetNext(rows);
    if next.Some? && Dispatchable(next.value) {
      if next.value.runnable {
        assert next.value in rows && Active(next.value);
      } else {
        MarkFailedRemoves(rows, next.value);
        var failed := MarkFailed(rows, next.value.id);
        CurrentIsActive(failed);
        if Current(failed).Some? {
          var row :| row in failed && row.id == Current(failed).value && Active(row) && row.runnable
            && Dispatchable(row);
          var i :| 0 <= i < |failed| && failed[i] == row;
          assert rows[i] in rows;
          assert rows[i] == failed[i];
        }
      }
    }
  }

  /** Appending a multicast that waits for its session unblocks nobody. */
  lemma AppendingMulticastKeepsBlocked(rows: seq<Row>, row: Row)
    requires Blocked(rows) && row.multicast && row.state == Pending
    ensures Blocked(rows + [row])
  {
    FirstInAppend(rows, row, Running);
    FirstInAppend(rows, row, Pending);
  }

  lemma {:induction false} FirstInAppend(rows: seq<Row>, row: Row, state: RowState)
    ensures FirstIn(rows + [row], state)
         == if FirstIn(rows, state).Some? then FirstIn(rows, state)
            else if row.state == state then Some(row) else None
  {
    if rows != [] {
      assert (rows + [row])[1..] == rows[1..] + [row];
      FirstInAppend(rows[1..], row, state);
    } else {
      assert rows + [row] == [row];
    }
  }

  /** Reopening a multicast row leaves a blocked host blocked. */
  lemma ReopeningMulticastKeepsBlocked(rows: seq<Row>, id: TaskId)
    requires Blocked(rows)
    requires forall r :: r in rows && r.id == id ==> r.multicast
    ensures Blocked(SetState(rows, id, {Failed, Cancelled}, Pending))
  {
    var after := SetState(rows, id, {Failed, Cancelled}, Pending);
    forall r | r in after ensures r.state != Running {
      var i :| 0 <= i < |after| && after[i] == r;
      assert rows[i] in rows;
    }
    FirstPendingAfterReopening(rows, id);
  }

  lemma {:induction false} FirstPendingAfterReopening(rows: seq<Row>, id: TaskId)
    requires forall r :: r in rows && r.id == id ==> r.multicast
    ensures var after := FirstIn(SetState(rows, id, {Failed, Cancelled}, Pending), Pending);
      after == FirstIn(rows, Pending) || (after.Some? && after.value.multicast)
  {
    if rows != [] {
      var after := SetState(rows, id, {Failed, Cancelled}, Pending);
      assert after[1..] == SetState(rows[1..], id, {Failed, Cancelled}, Pending);
      FirstPendingAfterReopening(rows[1..], id);
      assert rows[0] in rows;
    }
  }

  // ----- what waits behind a row -------------------------------------------------------------------

  function Without(rows: seq<Row>, id: TaskId): seq<Row> {
    if rows == [] then []
    else (if rows[0].id == id then [] else [rows[0]]) + Without(rows[1..], id)
  }

  /** Were it not for task `id`, the host would have a task to be handed. */
  predicate HasTaskBehind(rows: seq<Row>, id: TaskId) {
    !Blocked(Without(rows, id))
  }

  lemma {:induction false} WithoutAnother(rows: seq<Row>, id: TaskId, state: RowState)
    requires FirstIn(rows, state).Some? ==> FirstIn(rows, state).value.id != id
    ensures FirstIn(Without(rows, id), state) == FirstIn(rows, state)
  {
    if rows != [] {
      if rows[0].id == id {
        assert Without(rows, id) == Without(rows[1..], id);
        WithoutAnother(rows[1..], id, state);
      } else {
        assert Without(rows, id)[1..] == Without(rows[1..], id);
        if rows[0].state != state {
          WithoutAnother(rows[1..], id, state);
        }
      }
    }
  }

  /** Behind a row that is not next, a blocked host has nothing. */
  lemma OnlyTheNextHides(rows: seq<Row>, id: TaskId)
    requires Blocked(rows) && (GetNext(rows).Some? ==> GetNext(rows).value.id != id)
    ensures !HasTaskBehind(rows, id)
  {
    WithoutAnother(rows, id, Running);
    WithoutAnother(rows, id, Pending);
  }

  lemma {:induction false} SettledRowIsGone(rows: seq<Row>, id: TaskId, outcome: RowState, state: RowState)
    requires outcome != Pending && outcome != Running && (state == Pending || state == Running)
    ensures FirstIn(SetState(rows, id, {Pending, Running}, outcome), state) == FirstIn(Without(rows, id), state)
  {
    if rows != [] {
      SettledRowIsGone(rows[1..], id, outcome, state);
      var after := SetState(rows, id, {Pending, Running}, outcome);
      assert after[1..] == SetState(rows[1..], id, {Pending, Running}, outcome);
      if rows[0].id != id {
        assert Without(rows, id)[1..] == Without(rows[1..], id);
      } else {
        assert Without(rows, id) == Without(rows[1..], id);
      }
    }
  }

  /** Settling a task leaves the host with whatever waits behind it. */
  lemma SettlingShowsWhatIsBehind(rows: seq<Row>, id: TaskId, outcome: RowState)
    requires outcome != Pending && outcome != Running
    ensures Blocked(SetState(rows, id, {Pending, Running}, outcome)) <==> !HasTaskBehind(rows, id)
  {
    SettledRowIsGone(rows, id, outcome, Running);
    SettledRowIsGone(rows, id, outcome, Pending);
  }

}
