/**
 The two PL/pgSQL functions of scripts/create_core_tables.py called one at a
 time: submitting a task, and a scheduler's claim with its row-by-row loop.
 */
module TaskTables {
  import opened Basics
  import opened TaskRows

  /** A row of the table funcNewTasksForSchedr returns. */
  datatype NewTask = NewTask(
    qid: TaskId, workerPreset: int, averDurationSec: int, maxDurationSec: int,
    params: string, scriptPath: string, resultPath: string)

  function NullIf(v: int): Option<int> { if v == 0 then None else Some(v) }

  function Coalesce(v: Option<int>): int { if v.Some? then v.value else 0 }

  function Returned(id: TaskId, row: Row): NewTask {
    NewTask(id, Coalesce(row.param.workerPreset), row.param.averDurationSec, row.param.maxDurationSec,
            row.param.params, row.param.scriptPath, row.param.resultPath)
  }

  /** The column CHECKs of tblTaskParam. */
  predicate ParamAccepted(param: Param) {
    param.averDurationSec >= 0 && param.maxDurationSec >= 0
  }

  /** What a call may hand out of the rows before it, column by column: READY tasks (state
      1) that nobody has, meant for sId or for anyone, with the parameters they were given;
      ascending, at most maxTaskCnt, and none passed over unless there is no room for it. */
  ghost predicate HandedOut(rows: Table, sId: int, maxTaskCnt: int, out: seq<NewTask>) {
    && |out| <= maxTaskCnt
    && (forall j, k :: 0 <= j < k < |out| ==> out[j].qid < out[k].qid)
    && (forall k :: 0 <= k < |out| ==>
          && out[k].qid in rows
          && var row := rows[out[k].qid];
             && row.state == 1 && row.schedr == None
             && (row.param.schedrPreset == None || row.param.schedrPreset == Some(sId))
             && out[k].workerPreset == (match row.param.workerPreset case None => 0 case Some(w) => w)
             && out[k].averDurationSec == row.param.averDurationSec
             && out[k].maxDurationSec == row.param.maxDurationSec
             && out[k].params == row.param.params
             && out[k].scriptPath == row.param.scriptPath
             && out[k].resultPath == row.param.resultPath)
    && (forall id ::
          && id in rows && rows[id].state == 1 && rows[id].schedr == None
          && (rows[id].param.schedrPreset == None || rows[id].param.schedrPreset == Some(sId))
          ==>
          || (exists k :: 0 <= k < |out| && out[k].qid == id)
          || (|out| == maxTaskCnt && forall k :: 0 <= k < |out| ==> out[k].qid < id))
  }

  /** The rows after it: those handed out are sId's, in state START (2), taken now and not
      before they were created; the others are as they were. */
  ghost predicate MarkedAs(rows: Table, rows': Table, sId: int, now: int, out: seq<NewTask>) {
    && rows'.Keys == rows.Keys
    && (forall k :: 0 <= k < |out| && out[k].qid in rows ==>
          rows'[out[k].qid] == Row(Some(sId), 2, rows[out[k].qid].param,
                                   if rows[out[k].qid].createTime < now then rows[out[k].qid].createTime else now,
                                   Some(now)))
    && (forall id :: id in rows && (forall k :: 0 <= k < |out| ==> out[k].qid != id) ==> rows'[id] == rows[id])
  }

  lemma HandedOutRightly(rows: Table, bound: nat, sId: int, maxTaskCnt: nat, ids: seq<TaskId>, out: seq<NewTask>)
    requires forall id :: id in rows ==> id < bound
    requires ids == Take(maxTaskCnt, EligibleBelow(rows, sId, bound)) && |out| == |ids|
    requires forall k :: 0 <= k < |ids| ==> ids[k] in rows && out[k] == Returned(ids[k], rows[ids[k]])
    ensures HandedOut(rows, sId, maxTaskCnt, out)
  {
    var all := EligibleBelow(rows, sId, bound);
    TakeIsPrefix(maxTaskCnt, all);
    assert forall k :: 0 <= k < |ids| ==> ids[k] in ids && out[k].qid == ids[k];
    forall id | id in all && (forall k :: 0 <= k < |out| ==> out[k].qid != id)
      ensures |out| == maxTaskCnt && forall k :: 0 <= k < |out| ==> out[k].qid < id
    {
      assert id !in ids by {
        assert forall k :: 0 <= k < |ids| ==> ids[k] != id;
      }
      NotTaken(maxTaskCnt, all, id);
    }
  }

  lemma MarkedRightly(rows: Table, sId: int, now: int, ids: seq<TaskId>, out: seq<NewTask>)
    requires |out| == |ids| && forall k :: 0 <= k < |ids| ==> ids[k] in rows && out[k].qid == ids[k]
    ensures MarkedAs(rows, ClaimAll(rows, ids, sId, now), sId, now, out)
  {
  }

  class Tables {
    var rows: Table
    var bound: nat  // the next value of the id sequence

    ghost predicate Valid()
      reads this
    {
      forall id :: id in rows ==> id < bound && TimesOrdered(rows[id])
    }

    constructor ()
      ensures Valid() && rows == map[] && bound == 0
    {
      rows, bound := map[], 0;
    }

    /** funcStartTask. A failed CHECK undoes the inserts, but a used id stays used. */
    method StartTask(schedrPreset: int, workerPreset: int, averDurationSec: int, maxDurationSec: int,
                     params: string, scriptPath: string, resultPath: string, now: int) returns (qId: Option<TaskId>)
      requires Valid()
      modifies this
      ensures Valid()
      ensures
        var param := Param(NullIf(schedrPreset), NullIf(workerPreset), averDurationSec, maxDurationSec,
                           params, scriptPath, resultPath);
        && bound == old(bound) + 1
        && qId == (if ParamAccepted(param) then Some(old(bound)) else None)
        && rows == (if qId == None then old(rows) else old(rows)[old(bound) := Row(None, READY, param, now, None)])
      ensures qId.Some? <==> averDurationSec >= 0 && maxDurationSec >= 0
      ensures qId.Some? ==>
        && qId.value !in old(rows) && qId.value in rows
        && rows[qId.value] == Row(None, 1,
             Param(if schedrPreset == 0 then None else Some(schedrPreset),
                   if workerPreset == 0 then None else Some(workerPreset),
                   averDurationSec, maxDurationSec, params, scriptPath, resultPath), now, None)
    {
      var id := bound;
      bound := bound + 1;
      if averDurationSec < 0 || maxDurationSec < 0 {
        return None;
      }
      var param := Param(NullIf(schedrPreset), NullIf(workerPreset), averDurationSec, maxDurationSec,
                         params, scriptPath, resultPath);
      rows := rows[id := Row(None, READY, param, now, None)];
      qId := Some(id);
    }

    /** funcNewTasksForSchedr; None is the error a negative LIMIT raises. */
    method NewTasksForSchedr(sId: int, maxTaskCnt: int, now: int) returns (out: Option<seq<NewTask>>)
      requires Valid()
      modifies this`rows
      ensures Valid()
      ensures maxTaskCnt < 0 ==> out == None && rows == old(rows)
      ensures maxTaskCnt >= 0 ==>
        var ids := Take(maxTaskCnt, EligibleBelow(old(rows), sId, bound));
        && rows == ClaimAll(old(rows), ids, sId, now)
        && out.Some? && |out.value| == |ids|
        && forall k :: 0 <= k < |ids| ==> ids[k] in old(rows) && out.value[k] == Returned(ids[k], old(rows)[ids[k]])
      ensures maxTaskCnt >= 0 ==>
        && HandedOut(old(rows), sId, maxTaskCnt, out.value)
        && MarkedAs(old(rows), rows, sId, now, out.value)
    {
      if maxTaskCnt < 0 {
        return None;
      }
      var ids := Take(maxTaskCnt, EligibleBelow(rows, sId, bound));
      TakeIsPrefix(maxTaskCnt, EligibleBelow(rows, sId, bound));
      var ret := ClaimLoop(ids, sId, now);
      HandedOutRightly(old(rows), bound, sId, maxTaskCnt, ids, ret);
      MarkedRightly(old(rows), sId, now, ids, ret);
      out := Some(ret);
    }

    /** The FOR loop over the locked rows, column by column as the UPDATEs are. */
    method ClaimLoop(ids: seq<TaskId>, sId: int, now: int) returns (ret: seq<NewTask>)
      requires Ascending(ids) && forall id :: id in ids ==> id in rows
      modifies this`rows
      ensures rows == ClaimAll(old(rows), ids, sId, now)
      ensures |ret| == |ids| && forall k :: 0 <= k < |ids| ==> ret[k] == Returned(ids[k], old(rows)[ids[k]])
    {
      ret := [];
      assert rows == ClaimAll(rows, ids[..0], sId, now);
      var k := 0;
      while k < |ids|
        invariant 0 <= k <= |ids|
        invariant rows == ClaimAll(old(rows), ids[..k], sId, now)
        invariant |ret| == k
        invariant forall j :: 0 <= j < k ==> ret[j] == Returned(ids[j], old(rows)[ids[j]])
      {
        var qid := ids[k];
        ClaimNext(old(rows), ids, k, sId, now);
        ret := ret + [Returned(qid, rows[qid])];
        ClaimRow(qid, sId, now);
        k := k + 1;
      }
      assert ids[..k] == ids;
    }

    /** The UPDATEs of the loop body. */
    method ClaimRow(qid: TaskId, sId: int, now: int)
      requires qid in rows
      modifies this`rows
      ensures rows == old(rows)[qid := Claim(old(rows)[qid], sId, now)]
    {
      rows := rows[qid := rows[qid].(schedr := Some(sId))];
      rows := rows[qid := rows[qid].(state := START)];
      if rows[qid].createTime > now {
        rows := rows[qid := rows[qid].(createTime := now)];
      }
      rows := rows[qid := rows[qid].(takeInWorkTime := Some(now))];
    }
  }

  /** One turn of the loop: the next row is untouched so far and gets claimed. */
  lemma ClaimNext(rows: Table, ids: seq<TaskId>, k: nat, sId: int, now: int)
    requires Ascending(ids) && k < |ids| && ids[k] in rows
    ensures ClaimAll(rows, ids[..k], sId, now)[ids[k]] == rows[ids[k]]
    ensures ClaimAll(rows, ids[..k + 1], sId, now)
         == ClaimAll(rows, ids[..k], sId, now)[ids[k] := Claim(rows[ids[k]], sId, now)]
  {
    assert ids[..k + 1] == ids[..k] + [ids[k]];
    assert ids[k] !in ids[..k];
  }

  // ------------------------------------------------- sequences of whole calls

  /** The arguments of funcStartTask; a preset of 0 is none. */
  datatype Request = Request(
    schedrPreset: int, workerPreset: int, averDurationSec: int, maxDurationSec: int,
    params: string, scriptPath: string, resultPath: string)

  function ParamOf(r: Request): Param {
    Param(NullIf(r.schedrPreset), NullIf(r.workerPreset), r.averDurationSec, r.maxDurationSec,
          r.params, r.scriptPath, r.resultPath)
  }

  datatype Op = Submit(request: Request, at: int) | Call(sId: int, maxTaskCnt: int, now: int)

  datatype Store = Store(rows: Table, bound: nat)

  function Claims(st: Store, op: Op): seq<TaskId> {
    if op.Call? && op.maxTaskCnt >= 0 then Take(op.maxTaskCnt, EligibleBelow(st.rows, op.sId, st.bound)) else []
  }

  function Exec(st: Store, op: Op): Store {
    match op
    case Submit(request, at) =>
      var param := ParamOf(request);
      Store(if ParamAccepted(param) then st.rows[st.bound := Row(None, READY, param, at, None)] else st.rows,
            st.bound + 1)
    case Call(sId, _, now) => Store(ClaimAll(st.rows, Claims(st, op), sId, now), st.bound)
  }

  function ExecAll(ops: seq<Op>): Store {
    if ops == [] then Store(map[], 0) else Exec(ExecAll(ops[..|ops| - 1]), ops[|ops| - 1])
  }

  /** Everything scheduler s was ever handed, call after call. */
  function History(ops: seq<Op>, s: int): seq<TaskId> {
    if ops == [] then []
    else
      var before, op := ops[..|ops| - 1], ops[|ops| - 1];
      History(before, s) + if op.Call? && op.sId == s then Claims(ExecAll(before), op) else []
  }

  /** All that s was handed comes before all it could still get, and is in the table. */
  ghost predicate Behind(got: seq<TaskId>, st: Store, s: int) {
    && Ascending(got)
    && (forall a :: a in got ==> a < st.bound)
    && (forall a, b :: a in got && b in st.rows && Eligible(st.rows[b], s) ==> a < b)
  }

  ghost predicate StoreOk(st: Store) {
    forall id :: id in st.rows ==> id < st.bound && TimesOrdered(st.rows[id])
  }

  lemma ExecKeepsStore(st: Store, op: Op)
    requires StoreOk(st)
    ensures StoreOk(Exec(st, op))
  {
  }

  lemma AscendingAppend(a: seq<TaskId>, b: seq<TaskId>)
    requires Ascending(a) && Ascending(b) && forall x, y :: x in a && y in b ==> x < y
    ensures Ascending(a + b)
  {
    var c := a + b;
    forall i, j | 0 <= i < j < |c| ensures c[i] < c[j] {
      if i < |a| <= j { assert a[i] in a && b[j - |a|] in b; }
    }
  }

  /** No row becomes eligible by a call, and none below the bound by a submit. */
  lemma EligibleBefore(st: Store, op: Op, s: int, id: TaskId)
    requires id in Exec(st, op).rows && Eligible(Exec(st, op).rows[id], s)
    ensures id == st.bound || (id in st.rows && Eligible(st.rows[id], s) && id !in Claims(st, op))
  {
  }

  lemma OthersStayBehind(got: seq<TaskId>, st: Store, op: Op, s: int)
    requires Behind(got, st, s)
    ensures Behind(got, Exec(st, op), s)
  {
    var st' := Exec(st, op);
    forall a, b | a in got && b in st'.rows && Eligible(st'.rows[b], s) ensures a < b {
      EligibleBefore(st, op, s, b);
    }
  }

  /** What a call of s claims comes after what s had and before what is left to it. */
  lemma ClaimsStayBehind(got: seq<TaskId>, st: Store, op: Op, s: int)
    requires Behind(got, st, s) && StoreOk(st) && op.Call? && op.sId == s
    ensures Behind(got + Claims(st, op), Exec(st, op), s)
  {
    var st', claims := Exec(st, op), Claims(st, op);
    ClaimsAreFirst(st, op);
    AscendingAppend(got, claims);
    forall a, b | a in got + claims && b in st'.rows && Eligible(st'.rows[b], s) ensures a < b {
      EligibleBefore(st, op, s, b);
    }
  }

  /** A call passes over no eligible task to hand out a later one. */
  lemma ClaimsAreFirst(st: Store, op: Op)
    requires StoreOk(st) && op.Call?
    ensures Ascending(Claims(st, op))
    ensures forall a :: a in Claims(st, op) ==> a < st.bound && a in st.rows && Eligible(st.rows[a], op.sId)
    ensures forall a, b ::
              b in Claims(st, op) && a <= b && a in st.rows && Eligible(st.rows[a], op.sId) ==> a in Claims(st, op)
  {
    if op.maxTaskCnt >= 0 {
      TakeIsPrefix(op.maxTaskCnt, EligibleBelow(st.rows, op.sId, st.bound));
    }
  }

  /** NO OVERTAKING. Over any sequence of submits and calls by any schedulers,
      what one scheduler receives is in strictly ascending order of submission, and
      all it received comes before all it could still get. */
  lemma {:induction false} NeverOvertaken(ops: seq<Op>, s: int)
    ensures Behind(History(ops, s), ExecAll(ops), s)
    ensures StoreOk(ExecAll(ops))
  {
    if ops != [] {
      var before, op := ops[..|ops| - 1], ops[|ops| - 1];
      NeverOvertaken(before, s);
      ExecKeepsStore(ExecAll(before), op);
      if op.Call? && op.sId == s {
        ClaimsStayBehind(History(before, s), ExecAll(before), op, s);
      } else {
        OthersStayBehind(History(before, s), ExecAll(before), op, s);
        assert History(before, s) + [] == History(before, s);
      }
    }
  }

  function ClaimsAt(ops: seq<Op>, k: nat): seq<TaskId>
    requires k < |ops|
  {
    Claims(ExecAll(ops[..k]), ops[k])
  }

  lemma ClaimsAtPrefix(ops: seq<Op>, n: nat, k: nat)
    requires k < n <= |ops|
    ensures ClaimsAt(ops[..n], k) == ClaimsAt(ops, k)
  {
    assert ops[..n][..k] == ops[..k];
  }

  /** And no call of any run passes over an eligible task to hand out a later one. */
  lemma NonePassedOver(ops: seq<Op>, k: nat, a: TaskId, b: TaskId)
    requires k < |ops| && ops[k].Call? && b in ClaimsAt(ops, k) && a < b
    requires a in ExecAll(ops[..k]).rows && Eligible(ExecAll(ops[..k]).rows[a], ops[k].sId)
    ensures a in ClaimsAt(ops, k)
  {
    NeverOvertaken(ops[..k], ops[k].sId);
    ClaimsAreFirst(ExecAll(ops[..k]), ops[k]);
  }

  /** Every row stands for the submit that took its id, and keeps its arguments. */
  lemma {:induction false} RowsAreAsSubmitted(ops: seq<Op>, id: TaskId) returns (k: nat)
    requires id in ExecAll(ops).rows
    ensures k < |ops| && ops[k].Submit? && ExecAll(ops[..k]).bound == id
    ensures
      var r, param := ops[k].request, ExecAll(ops).rows[id].param;
      && param.schedrPreset == (if r.schedrPreset == 0 then None else Some(r.schedrPreset))
      && param.workerPreset == (if r.workerPreset == 0 then None else Some(r.workerPreset))
      && param.averDurationSec == r.averDurationSec && param.maxDurationSec == r.maxDurationSec
      && param.params == r.params && param.scriptPath == r.scriptPath && param.resultPath == r.resultPath
  {
    var n := |ops| - 1;
    var before := ExecAll(ops[..n]);
    if ops[n].Submit? && id == before.bound && ParamAccepted(ParamOf(ops[n].request)) {
      k := n;
    } else {
      assert id in before.rows && ExecAll(ops).rows[id].param == before.rows[id].param;
      k := RowsAreAsSubmitted(ops[..n], id);
      assert ops[..n][..k] == ops[..k];
    }
  }

  ghost predicate Gave(given: seq<seq<TaskId>>, ops: seq<Op>) {
    |given| == |ops| && forall k :: 0 <= k < |ops| ==> given[k] == ClaimsAt(ops, k)
  }

  lemma GaveOn(given: seq<seq<TaskId>>, ids: seq<TaskId>, ops: seq<Op>)
    requires ops != [] && Gave(given, ops[..|ops| - 1]) && ids == ClaimsAt(ops, |ops| - 1)
    ensures Gave(given + [ids], ops)
  {
    forall k | 0 <= k < |ops| - 1 ensures (given + [ids])[k] == ClaimsAt(ops, k) {
      ClaimsAtPrefix(ops, |ops| - 1, k);
    }
  }

  /** The tables after a sequence of calls, and the ids each call returned. */
  method Drive(ops: seq<Op>) returns (t: Tables, given: seq<seq<TaskId>>)
    ensures fresh(t) && t.Valid() && Store(t.rows, t.bound) == ExecAll(ops)
    ensures Gave(given, ops)
  {
    if ops == [] {
      t := new Tables();
      given := [];
    } else {
      var n := |ops| - 1;
      t, given := Drive(ops[..n]);
      var ids := Operate(t, ops[n]);
      GaveOn(given, ids, ops);
      given := given + [ids];
    }
  }

  method Operate(t: Tables, op: Op) returns (ids: seq<TaskId>)
    requires t.Valid()
    modifies t
    ensures t.Valid() && Store(t.rows, t.bound) == Exec(old(Store(t.rows, t.bound)), op)
    ensures ids == Claims(old(Store(t.rows, t.bound)), op)
  {
    ids := [];
    match op {
      case Submit(r, at) =>
        var id := t.StartTask(r.schedrPreset, r.workerPreset, r.averDurationSec, r.maxDurationSec,
                              r.params, r.scriptPath, r.resultPath, at);
      case Call(sId, maxTaskCnt, now) =>
        var out := t.NewTasksForSchedr(sId, maxTaskCnt, now);
        if out.Some? {
          ids := seq(|out.value|, k requires 0 <= k < |out.value| => out.value[k].qid);
        } else {
          AllStay(old(t.rows), sId, now);
        }
    }
  }

  lemma AllStay(rows: Table, sId: int, now: int)
    ensures ClaimAll(rows, [], sId, now) == rows
  {
  }
}
