/**
 funcNewTasksForSchedr of scripts/create_core_tables.py run by many schedulers
 at once. Each call is one transaction; its snapshot, every row lock, every
 recheck, every claim and its end are steps of their own.

 PostgreSQL at READ COMMITTED is taken to mean:
 - the SELECT sees the rows committed when it starts, and yields candidates by
   ascending id;
 - FOR UPDATE OF tq SKIP LOCKED locks candidates one by one as the loop asks
   for them, passes over one that another transaction has locked, and after
   locking rechecks the WHERE clause against the newest committed tq row only:
   ts and tp are still read from the snapshot;
 - a transaction's updates show when it commits, its locks last until it ends.
 */
module TaskClaim {
  import opened Basics
  import opened TaskRows

  type TxId = nat

  datatype Phase =
    | Scanning(rest: seq<TaskId>)
    | Locked(id: TaskId, rest: seq<TaskId>)
    | Rechecked(id: TaskId, rest: seq<TaskId>)
    | Committed
    | Aborted

  /** claimed is what RETURN NEXT has produced; now is current_timestamp. */
  datatype Tx = Tx(sId: int, maxTaskCnt: int, now: int, phase: Phase, claimed: seq<TaskId>)

  datatype Db = Db(rows: Table, bound: nat, locks: map<TaskId, TxId>, txs: seq<Tx>)

  datatype Step =
    | Submit(id: TaskId, param: Param, at: int)
    | SetState(id: TaskId, state: int)
    | Begin(sId: int, maxTaskCnt: int, now: int)
    | Advance(tx: TxId)
    | Commit(tx: TxId)
    | Abort(tx: TxId)

  predicate Active(tx: Tx) { !tx.phase.Committed? && !tx.phase.Aborted? }

  function EmptyDb(): Db { Db(map[], 0, map[], []) }

  function NewRow(param: Param, at: int): Row { Row(None, READY, param, at, None) }

  /** LIMIT of a negative number is an error, which aborts the call. */
  function BeginTx(db: Db, sId: int, maxTaskCnt: int, now: int): Tx {
    Tx(sId, maxTaskCnt, now,
       if maxTaskCnt < 0 then Aborted else Scanning(EligibleBelow(db.rows, sId, db.bound)), [])
  }

  predicate Finished(tx: Tx) {
    tx.phase.Scanning? && (tx.phase.rest == [] || |tx.claimed| >= tx.maxTaskCnt)
  }

  function SetPhase(db: Db, i: TxId, phase: Phase): Db
    requires i < |db.txs|
  {
    db.(txs := db.txs[i := db.txs[i].(phase := phase)])
  }

  predicate CanAdvance(db: Db, i: TxId) {
    && i < |db.txs| && Active(db.txs[i]) && !Finished(db.txs[i])
    && (db.txs[i].phase.Locked? ==> db.txs[i].phase.id in db.rows)
  }

  /** The next thing the loop of transaction i does. */
  function Advanced(db: Db, i: TxId): Db
    requires CanAdvance(db, i)
  {
    var tx := db.txs[i];
    match tx.phase
    case Scanning(rest) =>
      if rest[0] in db.locks && db.locks[rest[0]] != i then SetPhase(db, i, Scanning(rest[1..]))
      else SetPhase(db.(locks := db.locks[rest[0] := i]), i, Locked(rest[0], rest[1..]))
    case Locked(id, rest) =>
      if db.rows[id].schedr == None then SetPhase(db, i, Rechecked(id, rest))
      else SetPhase(db, i, Scanning(rest))
    case Rechecked(id, rest) =>
      db.(txs := db.txs[i := tx.(phase := Scanning(rest), claimed := tx.claimed + [id])])
  }

  function Unlock(locks: map<TaskId, TxId>, i: TxId): map<TaskId, TxId> {
    map id | id in locks && locks[id] != i :: locks[id]
  }

  predicate Enabled(db: Db, s: Step) {
    match s
    case Submit(id, _, _) => id !in db.rows
    case SetState(id, _) => id in db.rows
    case Begin(_, _, _) => true
    case Advance(i) => CanAdvance(db, i)
    case Commit(i) => i < |db.txs| && Finished(db.txs[i])
    case Abort(i) => i < |db.txs| && Active(db.txs[i])
  }

  /** SetState stands for every other writer of tblTaskState: it may put any
      state, even READY again, at any time. */
  function Apply(db: Db, s: Step): Db
    requires Enabled(db, s)
  {
    match s
    case Submit(id, param, at) =>
      db.(rows := db.rows[id := NewRow(param, at)], bound := if id < db.bound then db.bound else id + 1)
    case SetState(id, state) => db.(rows := db.rows[id := db.rows[id].(state := state)])
    case Begin(sId, maxTaskCnt, now) => db.(txs := db.txs + [BeginTx(db, sId, maxTaskCnt, now)])
    case Advance(i) => Advanced(db, i)
    case Commit(i) =>
      var tx := db.txs[i];
      SetPhase(db.(rows := ClaimAll(db.rows, tx.claimed, tx.sId, tx.now), locks := Unlock(db.locks, i)), i, Committed)
    case Abort(i) => SetPhase(db.(locks := Unlock(db.locks, i)), i, Aborted)
  }

  ghost predicate IsRun(dbs: seq<Db>, steps: seq<Step>) {
    && |dbs| == |steps| + 1
    && dbs[0] == EmptyDb()
    && forall k {:trigger steps[k]} :: 0 <= k < |steps| ==>
         Enabled(dbs[k], steps[k]) && dbs[k + 1] == Apply(dbs[k], steps[k])
  }

  // ---------------------------------------------------------------- invariant

  /** Every id the transaction has claimed, is holding, or has yet to look at, in scan order. */
  function Itinerary(tx: Tx): seq<TaskId> {
    match tx.phase
    case Scanning(rest) => tx.claimed + rest
    case Locked(id, rest) => tx.claimed + [id] + rest
    case Rechecked(id, rest) => tx.claimed + [id] + rest
    case _ => tx.claimed
  }

  /** A task's row belongs to transaction i alone and nobody has claimed it. */
  predicate HeldFree(db: Db, i: TxId, id: TaskId) {
    && id in db.locks && db.locks[id] == i
    && id in db.rows && db.rows[id].schedr == None
  }

  ghost predicate TxOk(db: Db, i: TxId)
    requires i < |db.txs|
  {
    var tx := db.txs[i];
    && Ascending(Itinerary(tx))
    && (forall id :: id in Itinerary(tx) ==> id in db.rows && PresetAllows(db.rows[id], tx.sId))
    && (tx.maxTaskCnt >= 0 ==> |tx.claimed| <= tx.maxTaskCnt)
    && (tx.maxTaskCnt < 0 ==> tx.phase == Aborted)
    && (tx.phase.Locked? || tx.phase.Rechecked? ==> |tx.claimed| < tx.maxTaskCnt)
    && (Active(tx) ==> forall id :: id in tx.claimed ==> HeldFree(db, i, id))
    && (tx.phase.Locked? ==> tx.phase.id in db.locks && db.locks[tx.phase.id] == i)
    && (tx.phase.Rechecked? ==> HeldFree(db, i, tx.phase.id))
    && (tx.phase == Committed ==> forall id :: id in tx.claimed ==>
          id in db.rows && db.rows[id].schedr == Some(tx.sId))
  }

  /** Transaction i committed a claim of id. */
  predicate Won(db: Db, i: TxId, id: TaskId) {
    i < |db.txs| && db.txs[i].phase == Committed && id in db.txs[i].claimed
  }

  ghost predicate RowOk(db: Db, id: TaskId)
    requires id in db.rows
  {
    && id < db.bound
    && TimesOrdered(db.rows[id])
    && (db.rows[id].schedr.Some? ==>
          && db.rows[id].takeInWorkTime.Some?
          && exists i: TxId :: Won(db, i, id) && db.txs[i].sId == db.rows[id].schedr.value)
  }

  ghost predicate Inv(db: Db) {
    && (forall id :: id in db.locks ==> id in db.rows && db.locks[id] < |db.txs| && Active(db.txs[db.locks[id]]))
    && (forall i: TxId :: i < |db.txs| ==> TxOk(db, i))
    && (forall i: TxId, j: TxId, id :: Won(db, i, id) && Won(db, j, id) ==> i == j)
    && (forall id :: id in db.rows ==> RowOk(db, id))
  }

  /** What a step of others may do to transaction j's world. */
  ghost predicate Undisturbed(db: Db, db': Db, j: TxId) {
    && j < |db.txs| && j < |db'.txs| && db'.txs[j] == db.txs[j]
    && (forall id :: id in db.rows ==>
          && id in db'.rows && db'.rows[id].param == db.rows[id].param
          && (db.rows[id].schedr.Some? ==> db'.rows[id].schedr == db.rows[id].schedr))
    && (forall id :: id in db.locks && db.locks[id] == j ==> id in db'.locks && db'.locks[id] == j)
    && (forall id :: HeldFree(db, j, id) ==> HeldFree(db', j, id))
  }

  lemma TxFrame(db: Db, db': Db, j: TxId)
    requires Undisturbed(db, db', j) && TxOk(db, j)
    ensures TxOk(db', j)
  {
  }

  lemma SubmitKeeps(db: Db, id: TaskId, param: Param, at: int)
    requires Inv(db) && id !in db.rows
    ensures Inv(Apply(db, Submit(id, param, at)))
  {
    var db' := Apply(db, Submit(id, param, at));
    SameWins(db, db');
    forall i: TxId | i < |db'.txs| ensures TxOk(db', i) { TxFrame(db, db', i); }
    forall x | x in db'.rows ensures RowOk(db', x) {
      if x != id { assert RowOk(db, x); }
    }
  }

  lemma SetStateKeeps(db: Db, id: TaskId, state: int)
    requires Inv(db) && id in db.rows
    ensures Inv(Apply(db, SetState(id, state)))
  {
    var db' := Apply(db, SetState(id, state));
    SameWins(db, db');
    forall i: TxId | i < |db'.txs| ensures TxOk(db', i) { TxFrame(db, db', i); }
    forall x | x in db'.rows ensures RowOk(db', x) { assert RowOk(db, x); }
  }

  /** A step that ends no claim leaves the record of committed claims alone. */
  lemma SameWins(db: Db, db': Db)
    requires |db.txs| <= |db'.txs|
    requires forall i: TxId :: i < |db'.txs| && db'.txs[i].phase == Committed ==> i < |db.txs|
    requires forall i: TxId :: i < |db.txs| && (db.txs[i].phase == Committed || db'.txs[i].phase == Committed) ==>
               db'.txs[i] == db.txs[i]
    ensures forall i: TxId, id :: Won(db, i, id) <==> Won(db', i, id)
  {
  }

  lemma WinsAreTaken(db: Db)
    requires Inv(db)
    ensures forall i: TxId, id :: Won(db, i, id) ==> id in db.rows && db.rows[id].schedr == Some(db.txs[i].sId)
  {
    forall i: TxId, id | Won(db, i, id) ensures id in db.rows && db.rows[id].schedr == Some(db.txs[i].sId) {
      assert TxOk(db, i);
    }
  }

  lemma BeginKeeps(db: Db, sId: int, maxTaskCnt: int, now: int)
    requires Inv(db)
    ensures Inv(Apply(db, Begin(sId, maxTaskCnt, now)))
  {
    var db' := Apply(db, Begin(sId, maxTaskCnt, now));
    SameWins(db, db');
    var ids := EligibleBelow(db.rows, sId, db.bound);
    assert [] + ids == ids;
    forall i: TxId | i < |db'.txs| ensures TxOk(db', i) {
      if i < |db.txs| { TxFrame(db, db', i); }
    }
    forall x | x in db'.rows ensures RowOk(db', x) { assert RowOk(db, x); }
  }

  lemma AdvanceKeeps(db: Db, i: TxId)
    requires Inv(db) && CanAdvance(db, i)
    ensures Inv(Advanced(db, i))
  {
    var db' := Advanced(db, i);
    SameWins(db, db');
    AdvanceOwn(db, i);
    forall j: TxId | j < |db'.txs| ensures TxOk(db', j) {
      if j != i { AdvanceOther(db, i, j); }
    }
    forall x | x in db'.rows ensures RowOk(db', x) { assert RowOk(db, x); }
  }

  /** A lock is never taken from its holder, so nobody else is disturbed. */
  lemma AdvanceOther(db: Db, i: TxId, j: TxId)
    requires CanAdvance(db, i) && j < |db.txs| && j != i && TxOk(db, j)
    ensures TxOk(Advanced(db, i), j)
  {
    var db' := Advanced(db, i);
    assert db'.rows == db.rows;
    assert forall id :: HeldFree(db, j, id) ==> HeldFree(db', j, id);
    TxFrame(db, db', j);
  }

  lemma AdvanceOwn(db: Db, i: TxId)
    requires Inv(db) && CanAdvance(db, i)
    ensures TxOk(Advanced(db, i), i)
  {
    assert TxOk(db, i);
    match db.txs[i].phase {
      case Scanning(_) => ScanOwn(db, i);
      case Locked(_, _) => RecheckOwn(db, i);
      case Rechecked(_, _) => ReturnOwn(db, i);
    }
  }

  lemma ScanOwn(db: Db, i: TxId)
    requires CanAdvance(db, i) && TxOk(db, i) && db.txs[i].phase.Scanning?
    ensures TxOk(Advanced(db, i), i)
  {
    var tx, tx', rest := db.txs[i], Advanced(db, i).txs[i], db.txs[i].phase.rest;
    assert tx.claimed + rest == tx.claimed + [rest[0]] + rest[1..];
    Skipped(tx.claimed, rest[0], rest[1..]);
    assert forall id :: HeldFree(db, i, id) ==> HeldFree(Advanced(db, i), i, id);
  }

  lemma RecheckOwn(db: Db, i: TxId)
    requires CanAdvance(db, i) && TxOk(db, i) && db.txs[i].phase.Locked?
    ensures TxOk(Advanced(db, i), i)
  {
    var tx := db.txs[i];
    Skipped(tx.claimed, tx.phase.id, tx.phase.rest);
    assert forall id :: HeldFree(db, i, id) ==> HeldFree(Advanced(db, i), i, id);
  }

  lemma ReturnOwn(db: Db, i: TxId)
    requires CanAdvance(db, i) && TxOk(db, i) && db.txs[i].phase.Rechecked?
    ensures TxOk(Advanced(db, i), i)
  {
    assert forall id :: HeldFree(db, i, id) ==> HeldFree(Advanced(db, i), i, id);
  }

  lemma Skipped(a: seq<TaskId>, id: TaskId, b: seq<TaskId>)
    requires Ascending(a + [id] + b)
    ensures Ascending(a + b)
    ensures forall x :: x in a + b ==> x in a + [id] + b
  {
    var whole := a + [id] + b;
    assert forall k :: 0 <= k < |a| ==> (a + b)[k] == whole[k];
    assert forall k :: |a| <= k < |a + b| ==> (a + b)[k] == whole[k + 1];
  }

  lemma CommitOther(db: Db, i: TxId, j: TxId)
    requires i < |db.txs| && Finished(db.txs[i]) && TxOk(db, i)
    requires j < |db.txs| && j != i && TxOk(db, j)
    ensures TxOk(Apply(db, Commit(i)), j)
  {
    var db' := Apply(db, Commit(i));
    forall id | HeldFree(db, j, id) ensures HeldFree(db', j, id) {
      assert id in db.txs[i].claimed ==> HeldFree(db, i, id);
    }
    TxFrame(db, db', j);
  }

  lemma CommitOwn(db: Db, i: TxId)
    requires i < |db.txs| && Finished(db.txs[i]) && TxOk(db, i)
    ensures TxOk(Apply(db, Commit(i)), i)
  {
    ClaimedAscends(db.txs[i]);
  }

  lemma CommitRow(db: Db, i: TxId, x: TaskId)
    requires i < |db.txs| && Finished(db.txs[i]) && TxOk(db, i) && x in db.rows && RowOk(db, x)
    ensures RowOk(Apply(db, Commit(i)), x)
  {
    var db' := Apply(db, Commit(i));
    if x in db.txs[i].claimed {
      assert Won(db', i, x);
    } else if db.rows[x].schedr.Some? {
      var w: TxId :| Won(db, w, x) && db.txs[w].sId == db.rows[x].schedr.value;
      assert Won(db', w, x);
    }
  }

  lemma CommitKeeps(db: Db, i: TxId)
    requires Inv(db) && i < |db.txs| && Finished(db.txs[i])
    ensures Inv(Apply(db, Commit(i)))
  {
    var db' := Apply(db, Commit(i));
    assert TxOk(db, i);
    forall j: TxId | j < |db'.txs| ensures TxOk(db', j) {
      if j == i { CommitOwn(db, i); } else { CommitOther(db, i, j); }
    }
    forall x | x in db'.rows ensures RowOk(db', x) { CommitRow(db, i, x); }
    forall j: TxId, k: TxId, x | Won(db', j, x) && Won(db', k, x) ensures j == k {
      OneWinner(db, i, j, k, x);
    }
  }

  lemma OneWinner(db: Db, i: TxId, j: TxId, k: TxId, x: TaskId)
    requires Inv(db) && i < |db.txs| && Finished(db.txs[i])
    requires Won(Apply(db, Commit(i)), j, x) && Won(Apply(db, Commit(i)), k, x)
    ensures j == k
  {
    assert TxOk(db, i);
    WinsAreTaken(db);
    assert j != i ==> Won(db, j, x);
    assert k != i ==> Won(db, k, x);
    assert x in db.txs[i].claimed ==> HeldFree(db, i, x);
  }

  lemma ClaimedAscends(tx: Tx)
    requires Ascending(Itinerary(tx))
    ensures Ascending(tx.claimed)
    ensures forall id :: id in tx.claimed ==> id in Itinerary(tx)
  {
    assert forall k :: 0 <= k < |tx.claimed| ==> Itinerary(tx)[k] == tx.claimed[k];
  }

  lemma AbortKeeps(db: Db, i: TxId)
    requires Inv(db) && i < |db.txs| && Active(db.txs[i])
    ensures Inv(Apply(db, Abort(i)))
  {
    var db' := Apply(db, Abort(i));
    SameWins(db, db');
    forall j: TxId | j < |db'.txs| ensures TxOk(db', j) {
      assert TxOk(db, j);
      if j == i { ClaimedAscends(db.txs[i]); } else { TxFrame(db, db', j); }
    }
    forall x | x in db'.rows ensures RowOk(db', x) { assert RowOk(db, x); }
  }

  lemma StepKeeps(db: Db, s: Step)
    requires Inv(db) && Enabled(db, s)
    ensures Inv(Apply(db, s))
  {
    match s {
      case Submit(id, param, at) => SubmitKeeps(db, id, param, at);
      case SetState(id, state) => SetStateKeeps(db, id, state);
      case Begin(sId, maxTaskCnt, now) => BeginKeeps(db, sId, maxTaskCnt, now);
      case Advance(i) => AdvanceKeeps(db, i);
      case Commit(i) => CommitKeeps(db, i);
      case Abort(i) => AbortKeeps(db, i);
    }
  }

  lemma RunStep(dbs: seq<Db>, steps: seq<Step>, k: nat)
    requires IsRun(dbs, steps) && k < |steps|
    ensures Enabled(dbs[k], steps[k]) && dbs[k + 1] == Apply(dbs[k], steps[k])
  {
  }

  lemma RunStepKeeps(dbs: seq<Db>, steps: seq<Step>, k: nat)
    requires IsRun(dbs, steps) && k < |steps| && Inv(dbs[k])
    ensures Inv(dbs[k + 1])
  {
    RunStep(dbs, steps, k);
    StepKeeps(dbs[k], steps[k]);
  }

  lemma {:induction false} RunKeeps(dbs: seq<Db>, steps: seq<Step>, k: nat)
    requires IsRun(dbs, steps) && k < |dbs|
    ensures Inv(dbs[k])
  {
    if k > 0 {
      RunKeeps(dbs, steps, k - 1);
      RunStepKeeps(dbs, steps, k - 1);
    }
  }
}
