/**
 What any number of concurrent calls of funcNewTasksForSchedr keep, with
 commits and aborts in any order and with tblTaskState rewritten at will: the
 recheck of tq.schedr under the row lock is enough.
 */
module TaskClaimTheorems {
  import opened Basics
  import opened TaskRows
  import opened TaskClaim

  /** SAFETY. No task is claimed by two committed calls; a committed call claimed
      at most maxTaskCnt tasks, all different and by ascending id, each meant for
      its scheduler and now marked with it; and takeInWorkTime >= createTime. */
  lemma ExclusiveClaims(dbs: seq<Db>, steps: seq<Step>, k: nat, i: TxId)
    requires IsRun(dbs, steps) && k < |dbs| && i < |dbs[k].txs| && dbs[k].txs[i].phase == Committed
    ensures
      var db := dbs[k];
      var tx := db.txs[i];
      && |tx.claimed| <= tx.maxTaskCnt
      && Ascending(tx.claimed)
      && (forall id :: id in tx.claimed ==>
            && id in db.rows
            && (db.rows[id].param.schedrPreset == None || db.rows[id].param.schedrPreset == Some(tx.sId))
            && db.rows[id].schedr == Some(tx.sId)
            && db.rows[id].takeInWorkTime.Some? && TimesOrdered(db.rows[id]))
      && (forall j: TxId, id :: id in tx.claimed && Won(db, j, id) ==> j == i)
  {
    RunKeeps(dbs, steps, k);
    assert TxOk(dbs[k], i);
    forall id | id in dbs[k].txs[i].claimed
      ensures Won(dbs[k], i, id) && id in dbs[k].rows && RowOk(dbs[k], id)
    {
    }
  }

  /** A commit marks exactly the claimed tasks: started, the scheduler's, taken now,
      never before their creation, and out of every scheduler's reach from then on. */
  lemma CommitMarks(db: Db, i: TxId, id: TaskId)
    requires Inv(db) && i < |db.txs| && Finished(db.txs[i]) && id in db.rows
    ensures
      var tx, row, rows' := db.txs[i], db.rows[id], Apply(db, Commit(i)).rows;
      && rows'.Keys == db.rows.Keys
      && (id !in tx.claimed ==> rows'[id] == row)
      && (id in tx.claimed ==>
            && rows'[id] == Row(Some(tx.sId), 2, row.param, Min(row.createTime, tx.now), Some(tx.now))
            && row.schedr == None
            && forall s :: !Eligible(rows'[id], s))
    ensures id in db.txs[i].claimed ==> id !in Apply(db, Commit(i)).locks
  {
    assert TxOk(db, i);
  }

  /** Nothing but a commit of a claim moves schedr, and only away from NULL. */
  lemma StepIsMonotone(db: Db, s: Step, id: TaskId)
    requires Inv(db) && Enabled(db, s) && id in db.rows
    ensures id in Apply(db, s).rows
    ensures db.rows[id].schedr.Some? ==> Apply(db, s).rows[id].schedr == db.rows[id].schedr
    ensures Apply(db, s).rows[id].param == db.rows[id].param
    ensures Apply(db, s).rows[id].schedr != db.rows[id].schedr ==> s.Commit? && id in db.txs[s.tx].claimed
    ensures forall i: TxId :: Won(db, i, id) ==> Won(Apply(db, s), i, id)
  {
    if s.Commit? { assert TxOk(db, s.tx); }
    if s.Advance? { assert Active(db.txs[s.tx]); }
  }

  /** PERMANENCE. Once committed, a task's scheduler never changes, and the call
      that won it stays the one that won it. */
  lemma {:induction false} ClaimsArePermanent(dbs: seq<Db>, steps: seq<Step>, k: nat, m: nat, id: TaskId)
    requires IsRun(dbs, steps) && k <= m < |dbs|
    requires id in dbs[k].rows && dbs[k].rows[id].schedr.Some?
    ensures id in dbs[m].rows && dbs[m].rows[id].schedr == dbs[k].rows[id].schedr
    ensures forall i: TxId :: Won(dbs[k], i, id) ==> Won(dbs[m], i, id)
  {
    if k < m {
      ClaimsArePermanent(dbs, steps, k, m - 1, id);
      RunKeeps(dbs, steps, m - 1);
      StepIsMonotone(dbs[m - 1], steps[m - 1], id);
    }
  }

  // --------------------------------------------------- one call left to itself

  function Measure(tx: Tx): nat {
    match tx.phase
    case Scanning(rest) => 3 * |rest|
    case Locked(_, rest) => 3 * |rest| + 2
    case Rechecked(_, rest) => 3 * |rest| + 1
    case _ => 0
  }

  /** Transaction i runs its loop to the end while nobody else moves. */
  ghost function RunOut(db: Db, i: TxId): Db
    requires Inv(db) && i < |db.txs| && Active(db.txs[i])
    decreases Measure(db.txs[i])
  {
    if Finished(db.txs[i]) then db
    else
      assert TxOk(db, i);
      AdvanceKeeps(db, i);
      RunOut(Advanced(db, i), i)
  }

  /** Candidates another transaction has not locked and nobody has taken. */
  function Obtainable(db: Db, i: TxId, ids: seq<TaskId>): seq<TaskId> {
    if ids == [] then []
    else if ids[0] in db.rows && db.rows[ids[0]].schedr == None && !(ids[0] in db.locks && db.locks[ids[0]] != i)
    then [ids[0]] + Obtainable(db, i, ids[1..])
    else Obtainable(db, i, ids[1..])
  }

  predicate SameForOthers(db: Db, db': Db, i: TxId) {
    && db'.rows == db.rows
    && forall id :: id in db.rows ==>
         ((id in db'.locks && db'.locks[id] != i) <==> (id in db.locks && db.locks[id] != i))
  }

  lemma {:induction false} ObtainableSame(db: Db, db': Db, i: TxId, ids: seq<TaskId>)
    requires SameForOthers(db, db', i)
    ensures Obtainable(db', i, ids) == Obtainable(db, i, ids)
  {
    if ids != [] { ObtainableSame(db, db', i, ids[1..]); }
  }

  /** What the loop still has before it, from each of its positions. */
  function Ahead(db: Db, i: TxId): seq<TaskId>
    requires i < |db.txs|
  {
    match db.txs[i].phase
    case Scanning(rest) => Obtainable(db, i, rest)
    case Locked(id, rest) => Obtainable(db, i, [id] + rest)
    case Rechecked(id, rest) => [id] + Obtainable(db, i, rest)
    case _ => []
  }

  lemma AheadStep(db: Db, i: TxId)
    requires Inv(db) && CanAdvance(db, i)
    ensures
      var tx, tx' := db.txs[i], Advanced(db, i).txs[i];
      && Active(tx') && Measure(tx') < Measure(tx)
      && tx.claimed + Ahead(db, i) == tx'.claimed + Ahead(Advanced(db, i), i)
      && SameForOthers(db, Advanced(db, i), i)
      && tx'.maxTaskCnt == tx.maxTaskCnt && tx'.sId == tx.sId && tx'.now == tx.now
  {
    var tx := db.txs[i];
    var db' := Advanced(db, i);
    assert TxOk(db, i);
    match tx.phase {
      case Scanning(rest) =>
        ObtainableSame(db, db', i, rest);
        ObtainableSame(db, db', i, rest[1..]);
        assert rest == [rest[0]] + rest[1..];
        assert rest[0] in Itinerary(tx);
      case Locked(id, rest) =>
        assert ([id] + rest)[1..] == rest;
        ObtainableSame(db, db', i, rest);
      case Rechecked(id, rest) =>
        ObtainableSame(db, db', i, rest);
    }
  }

  lemma {:induction false} RunOutClaims(db: Db, i: TxId)
    requires Inv(db) && i < |db.txs| && Active(db.txs[i]) && db.txs[i].maxTaskCnt >= 0
    ensures
      var tx, db' := db.txs[i], RunOut(db, i);
      && Inv(db') && i < |db'.txs| && Finished(db'.txs[i])
      && db'.rows == db.rows
      && db'.txs[i].claimed == Take(tx.maxTaskCnt, tx.claimed + Ahead(db, i))
      && db'.txs[i].sId == tx.sId && db'.txs[i].now == tx.now
    decreases Measure(db.txs[i])
  {
    assert TxOk(db, i);
    if Finished(db.txs[i]) {
      if db.txs[i].phase.rest == [] { assert db.txs[i].claimed + [] == db.txs[i].claimed; }
    } else {
      AdvanceKeeps(db, i);
      AheadStep(db, i);
      RunOutClaims(Advanced(db, i), i);
    }
  }

  /** A whole call by itself: begin, loop, commit. */
  ghost function SoloCall(db: Db, sId: int, maxTaskCnt: nat, now: int): Db
    requires Inv(db)
  {
    BeginKeeps(db, sId, maxTaskCnt, now);
    var db1 := Apply(db, Begin(sId, maxTaskCnt, now));
    RunOutClaims(db1, |db.txs|);
    Apply(RunOut(db1, |db.txs|), Commit(|db.txs|))
  }

  /** A call run by itself claims exactly the first maxTaskCnt of the eligible
      tasks that no other transaction has locked, whatever else is in flight. */
  lemma SoloCallClaims(db: Db, sId: int, maxTaskCnt: nat, now: int)
    requires Inv(db)
    ensures
      var db' := SoloCall(db, sId, maxTaskCnt, now);
      var ids := Take(maxTaskCnt, Obtainable(db, |db.txs|, EligibleBelow(db.rows, sId, db.bound)));
      && Inv(db')
      && |db'.txs| > |db.txs| && db'.txs[|db.txs|].claimed == ids
      && db'.rows == ClaimAll(db.rows, ids, sId, now)
  {
    BeginKeeps(db, sId, maxTaskCnt, now);
    var db1 := Apply(db, Begin(sId, maxTaskCnt, now));
    var i := |db.txs|;
    RunOutClaims(db1, i);
    var db2 := RunOut(db1, i);
    assert db2.txs[i].claimed == Take(maxTaskCnt, Ahead(db1, i)) by {
      assert db1.txs[i].claimed + Ahead(db1, i) == Ahead(db1, i);
    }
    ObtainableSame(db, db1, i, EligibleBelow(db.rows, sId, db.bound));
    CommitKeeps(db2, i);
    CommitOutcome(db2, i);
  }

  lemma CommitOutcome(db: Db, i: TxId)
    requires i < |db.txs| && Finished(db.txs[i])
    ensures
      var db' := Apply(db, Commit(i));
      var tx := db.txs[i];
      && |db'.txs| == |db.txs| && db'.txs[i].claimed == tx.claimed
      && db'.rows == ClaimAll(db.rows, tx.claimed, tx.sId, tx.now)
  {
  }

  lemma {:induction false} AllObtainable(db: Db, i: TxId, ids: seq<TaskId>)
    requires forall id :: id in ids ==> id in db.rows && db.rows[id].schedr == None
    requires forall id :: id in ids ==> id !in db.locks
    ensures Obtainable(db, i, ids) == ids
  {
    if ids != [] { AllObtainable(db, i, ids[1..]); }
  }

  /** ALONE. With no lock outstanding a call claims exactly min(maxTaskCnt,
      number eligible) tasks, the lowest ids in ascending order. */
  lemma AloneTakesLowest(db: Db, sId: int, maxTaskCnt: nat, now: int)
    requires Inv(db) && db.locks == map[]
    ensures SoloCall(db, sId, maxTaskCnt, now).rows ==
            ClaimAll(db.rows, Take(maxTaskCnt, EligibleBelow(db.rows, sId, db.bound)), sId, now)
  {
    SoloCallClaims(db, sId, maxTaskCnt, now);
    AllObtainable(db, |db.txs|, EligibleBelow(db.rows, sId, db.bound));
  }

  lemma {:induction false} ObtainableHas(db: Db, i: TxId, ids: seq<TaskId>, id: TaskId)
    requires id in ids && id in db.rows && db.rows[id].schedr == None && id !in db.locks
    ensures id in Obtainable(db, i, ids)
  {
    if ids[0] != id { ObtainableHas(db, i, ids[1..], id); }
  }

  /** What is obtainable, in the same order. */
  lemma {:induction false} ObtainableIff(db: Db, i: TxId, ids: seq<TaskId>)
    ensures forall id :: id in Obtainable(db, i, ids) <==>
              id in ids && id in db.rows && db.rows[id].schedr == None && !(id in db.locks && db.locks[id] != i)
    ensures Ascending(ids) ==> Ascending(Obtainable(db, i, ids))
  {
    if ids != [] {
      ObtainableIff(db, i, ids[1..]);
      assert ids == [ids[0]] + ids[1..];
      if Ascending(ids) {
        var rest := Obtainable(db, i, ids[1..]);
        forall k | 0 <= k < |rest| ensures ids[0] < rest[k] {
          assert rest[k] in rest;
          var m :| 0 <= m < |ids| - 1 && ids[1..][m] == rest[k];
          assert ids[0] < ids[m + 1];
        }
      }
    }
  }

  /** A READY row (state 1) that nobody has and no transaction has locked, for sId or anyone. */
  predicate Open(db: Db, sId: int, id: TaskId) {
    && id in db.rows && id !in db.locks
    && db.rows[id].state == 1 && db.rows[id].schedr == None
    && (db.rows[id].param.schedrPreset == None || db.rows[id].param.schedrPreset == Some(sId))
  }

  /** In the rows' own columns: a call by itself claims only open tasks, ascending, at most
      maxTaskCnt, and leaves an open one only if it has no room for it. */
  lemma SoloCallTakesOpen(db: Db, sId: int, maxTaskCnt: nat, now: int)
    requires Inv(db)
    ensures
      var db' := SoloCall(db, sId, maxTaskCnt, now);
      && |db'.txs| > |db.txs|
      && var claimed := db'.txs[|db.txs|].claimed;
         && |claimed| <= maxTaskCnt && Ascending(claimed)
         && (forall id :: id in claimed ==> Open(db, sId, id))
         && (forall id :: Open(db, sId, id) && id !in claimed ==>
               |claimed| == maxTaskCnt && forall x :: x in claimed ==> x < id)
         && db'.rows == ClaimAll(db.rows, claimed, sId, now)
  {
    SoloCallClaims(db, sId, maxTaskCnt, now);
    var ids := EligibleBelow(db.rows, sId, db.bound);
    var all := Obtainable(db, |db.txs|, ids);
    var claimed := Take(maxTaskCnt, all);
    ObtainableIff(db, |db.txs|, ids);
    TakeIsPrefix(maxTaskCnt, all);
    forall id | Open(db, sId, id) ensures id in all {
      assert RowOk(db, id);
    }
    forall id | id in all && id !in claimed ensures |claimed| == maxTaskCnt && forall x :: x in claimed ==> x < id {
      NotTaken(maxTaskCnt, all, id);
    }
  }

  /** SUBMIT. A submitted task is READY (state 1) and can be had: a call by itself claims
      it, unless it fills up with tasks before it. */
  lemma SubmittedIsClaimed(db: Db, id: TaskId, param: Param, at: int, sId: int, maxTaskCnt: nat, now: int)
    requires Inv(db) && id !in db.rows
    requires param.schedrPreset == None || param.schedrPreset == Some(sId)
    ensures
      var db1 := Apply(db, Submit(id, param, at));
      && Inv(db1) && db1.rows == db.rows[id := Row(None, 1, param, at, None)]
      && var db2 := SoloCall(db1, sId, maxTaskCnt, now);
         && |db2.txs| > |db1.txs|
         && var claimed := db2.txs[|db1.txs|].claimed;
            if id in claimed then id in db2.rows && db2.rows[id].schedr == Some(sId) && db2.rows[id].state == 2
            else |claimed| == maxTaskCnt && forall x :: x in claimed ==> x < id && Open(db, sId, x)
  {
    SubmitKeeps(db, id, param, at);
    SoloCallTakesOpen(Apply(db, Submit(id, param, at)), sId, maxTaskCnt, now);
  }

  /** ABORT. An aborted call leaves every row as it was, unclaimed and unlocked,
      and a later call with room for it gets any of its tasks that is still READY. */
  lemma AbortLeavesClaimable(dbs: seq<Db>, steps: seq<Step>, k: nat, i: TxId, id: TaskId,
                             sId: int, maxTaskCnt: nat, now: int)
    requires IsRun(dbs, steps) && k < |steps| && steps[k] == Abort(i)
    requires id in dbs[k].txs[i].claimed
    ensures dbs[k + 1].rows == dbs[k].rows
    ensures id in dbs[k].rows && dbs[k].rows[id].schedr == None && id !in dbs[k + 1].locks
    ensures Inv(dbs[k + 1])
    ensures
      var db := dbs[k + 1];
      && Eligible(db.rows[id], sId)
      && maxTaskCnt >= |EligibleBelow(db.rows, sId, db.bound)|
      ==>
      var rows := SoloCall(db, sId, maxTaskCnt, now).rows;
      id in rows && rows[id].schedr == Some(sId)
  {
    RunKeeps(dbs, steps, k);
    RunKeeps(dbs, steps, k + 1);
    assert TxOk(dbs[k], i);
    assert RowOk(dbs[k], id);
    var db := dbs[k + 1];
    if Eligible(db.rows[id], sId) && maxTaskCnt >= |EligibleBelow(db.rows, sId, db.bound)| {
      var ids := EligibleBelow(db.rows, sId, db.bound);
      ObtainableHas(db, |db.txs|, ids, id);
      ObtainableShorter(db, |db.txs|, ids);
      SoloCallClaims(db, sId, maxTaskCnt, now);
    }
  }

  lemma {:induction false} ObtainableShorter(db: Db, i: TxId, ids: seq<TaskId>)
    ensures |Obtainable(db, i, ids)| <= |ids|
  {
    if ids != [] { ObtainableShorter(db, i, ids[1..]); }
  }
}
