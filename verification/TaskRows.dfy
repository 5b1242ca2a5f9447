/**
 One task's row in tblTaskQueue, tblTaskState, tblTaskTime and tblTaskParam of
 scripts/create_core_tables.py, joined on the task id, and the query by which
 a scheduler asks for new tasks.
 */
module TaskRows {
  import opened Basics

  type TaskId = nat

  const READY := 1
  const START := 2

  datatype Param = Param(
    schedrPreset: Option<int>, workerPreset: Option<int>,
    averDurationSec: int, maxDurationSec: int,
    params: string, scriptPath: string, resultPath: string)

  datatype Row = Row(
    schedr: Option<int>, state: int, param: Param,
    createTime: int, takeInWorkTime: Option<int>)

  type Table = map<TaskId, Row>

  predicate PresetAllows(row: Row, sId: int) {
    row.param.schedrPreset == None || row.param.schedrPreset == Some(sId)
  }

  /** The WHERE clause of funcNewTasksForSchedr. */
  predicate Eligible(row: Row, sId: int) {
    row.state == READY && row.schedr == None && PresetAllows(row, sId)
  }

  /** Its answer in ORDER BY tq.id, for the ids below n. */
  function EligibleBelow(rows: Table, sId: int, n: nat): (ids: seq<TaskId>)
    ensures Ascending(ids)
    ensures forall id :: id in ids <==> id < n && id in rows && Eligible(rows[id], sId)
    ensures forall id :: id in ids <==>
              && id < n && id in rows && rows[id].state == 1 && rows[id].schedr == None
              && (rows[id].param.schedrPreset == None || rows[id].param.schedrPreset == Some(sId))
  {
    if n == 0 then []
    else
      var ids := EligibleBelow(rows, sId, n - 1);
      assert forall i :: 0 <= i < |ids| ==> ids[i] in ids;
      if n - 1 in rows && Eligible(rows[n - 1], sId) then ids + [n - 1] else ids
  }

  predicate Ascending(ids: seq<TaskId>) {
    forall i, j :: 0 <= i < j < |ids| ==> ids[i] < ids[j]
  }

  function Take<A>(n: nat, s: seq<A>): seq<A> {
    if n <= |s| then s[..n] else s
  }

  lemma TakeIsPrefix(n: nat, ids: seq<TaskId>)
    requires Ascending(ids)
    ensures Ascending(Take(n, ids))
    ensures forall a, b :: a in ids && b in Take(n, ids) && a <= b ==> a in Take(n, ids)
    ensures forall a :: a in Take(n, ids) ==> a in ids
  {
    forall a, b | a in ids && b in Take(n, ids) && a <= b ensures a in Take(n, ids) {
      var i :| 0 <= i < |ids| && ids[i] == a;
      var j :| 0 <= j < |Take(n, ids)| && Take(n, ids)[j] == b;
      assert i <= j;
      assert Take(n, ids)[i] == a;
    }
  }

  lemma NotTaken(n: nat, ids: seq<TaskId>, id: TaskId)
    requires Ascending(ids) && id in ids && id !in Take(n, ids)
    ensures |Take(n, ids)| == n && forall x :: x in Take(n, ids) ==> x < id
  {
    var t := Take(n, ids);
    assert forall k :: 0 <= k < |t| ==> t[k] in t && t[k] == ids[k];
  }

  /** The three UPDATEs of the loop body. */
  function Claim(row: Row, sId: int, now: int): Row {
    row.(schedr := Some(sId), state := START,
         createTime := if row.createTime > now then now else row.createTime,
         takeInWorkTime := Some(now))
  }

  function ClaimAll(rows: Table, ids: seq<TaskId>, sId: int, now: int): Table {
    map id | id in rows :: if id in ids then Claim(rows[id], sId, now) else rows[id]
  }

  /** CHECK (takeInWorkTime >= createTime); a NULL passes. */
  predicate TimesOrdered(row: Row) {
    row.takeInWorkTime.Some? ==> row.takeInWorkTime.value >= row.createTime
  }
}
