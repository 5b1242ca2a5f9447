/**
 The pipeline of web/server: when a task is reported COMPLETED, taskChangeCBack
 (web/server/core.py) starts the successors that its pipeline task lists, flags
 and finds enabled (web/server/pipeline_task.py).
 */
module Cascade {
  import opened Basics
  import opened States
  import opened Selections
  import opened TextLists

  type PplId = int

  /** A row of tblPipelineTask; the lists are stored as text. */
  datatype PplTask = PplTask(isEnabled: bool, nextTasksId: string, isStartNext: string)

  type Pipeline = map<PplId, PplTask>

  predicate Terminal(st: StateType) { st.COMPLETED? || st.ERROR? || st.STOP? }

  /** A row of tblTask; the task's id is its place in the table. */
  datatype Task = Task(pplTaskId: PplId, starterPplTaskId: Option<PplId>, state: StateType)

  // ------------------------------------------------------------- successors

  function Zip(ids: seq<int>, flags: seq<int>): (r: seq<(int, int)>)
    requires |ids| <= |flags|
    ensures |r| == |ids|
  {
    seq(|ids|, i requires 0 <= i < |ids| => (ids[i], flags[i]))
  }

  /** getNextTasks: a missing row, a part that is no integer, or a flag list that
      is too short gives no successors at all. */
  function NextTasks(pipe: Pipeline, id: PplId): seq<(int, int)> {
    if id !in pipe then []
    else
      var ids, flags := ParseInts(pipe[id].nextTasksId), ParseInts(pipe[id].isStartNext);
      if ids == None || flags == None || |flags.value| < |ids.value| then []
      else Zip(ids.value, flags.value)
  }

  /** The list stored in text as add and change print it. */
  predicate Stores(text: string, vs: seq<int>) { text == PrintInts(vs) }

  lemma StoredNext(pipe: Pipeline, id: PplId, ids: seq<int>, flags: seq<int>)
    requires id in pipe && Stores(pipe[id].nextTasksId, ids) && Stores(pipe[id].isStartNext, flags)
    ensures NextTasks(pipe, id) == if |flags| < |ids| then [] else Zip(ids, flags)
  {
    IntsRoundTrip(ids);
    IntsRoundTrip(flags);
  }

  /** All the successors with their flags, or none if the flags are too few. */
  predicate Paired(ids: seq<int>, flags: seq<int>, ret: seq<(int, int)>) {
    if |flags| < |ids| then ret == []
    else |ret| == |ids| && forall i :: 0 <= i < |ids| ==> ret[i] == (ids[i], flags[i])
  }

  /** The successors as they were stored; none for a missing row and for a list with a
      part that is no integer. */
  ghost predicate RightSuccessors(pipe: Pipeline, id: PplId, ret: seq<(int, int)>) {
    && (id !in pipe ==> ret == [])
    && (id in pipe && (HasBadPart(pipe[id].nextTasksId) || HasBadPart(pipe[id].isStartNext)) ==> ret == [])
    && (forall ids, flags ::
          id in pipe && Stores(pipe[id].nextTasksId, ids) && Stores(pipe[id].isStartNext, flags) ==>
            Paired(ids, flags, ret))
  }

  lemma BadNext(pipe: Pipeline, id: PplId)
    requires id in pipe && (HasBadPart(pipe[id].nextTasksId) || HasBadPart(pipe[id].isStartNext))
    ensures NextTasks(pipe, id) == []
  {
    BadPartIff(pipe[id].nextTasksId);
    BadPartIff(pipe[id].isStartNext);
  }

  lemma PairedNext(pipe: Pipeline, id: PplId, ids: seq<int>, flags: seq<int>)
    requires id in pipe && Stores(pipe[id].nextTasksId, ids) && Stores(pipe[id].isStartNext, flags)
    ensures Paired(ids, flags, NextTasks(pipe, id))
  {
    StoredNext(pipe, id, ids, flags);
  }

  lemma NextTasksAreRight(pipe: Pipeline, id: PplId)
    ensures RightSuccessors(pipe, id, NextTasks(pipe, id))
  {
    var ret := NextTasks(pipe, id);
    if id in pipe && (HasBadPart(pipe[id].nextTasksId) || HasBadPart(pipe[id].isStartNext)) {
      BadNext(pipe, id);
    }
    forall ids, flags | id in pipe && Stores(pipe[id].nextTasksId, ids) && Stores(pipe[id].isStartNext, flags)
      ensures Paired(ids, flags, ret)
    {
      PairedNext(pipe, id, ids, flags);
    }
  }

  method GetNextTasks(pipe: Pipeline, id: PplId) returns (ret: seq<(int, int)>)
    ensures ret == NextTasks(pipe, id) && RightSuccessors(pipe, id, ret)
  {
    NextTasksAreRight(pipe, id);
    if id !in pipe {
      return [];
    }
    var ids, flags := ParseInts(pipe[id].nextTasksId), ParseInts(pipe[id].isStartNext);
    if ids == None || flags == None {
      return [];
    }
    ret := PairUp(ids.value, flags.value);
  }

  /** The loop of getNextTasks; indexing past the flags ends in its except branch. */
  method PairUp(ids: seq<int>, flags: seq<int>) returns (ret: seq<(int, int)>)
    ensures ret == if |flags| < |ids| then [] else Zip(ids, flags)
  {
    ret := [];
    var i := 0;
    while i < |ids|
      invariant 0 <= i <= |ids| && |ret| == i <= |flags|
      invariant forall k :: 0 <= k < i ==> ret[k] == (ids[k], flags[k])
    {
      if i >= |flags| {
        return [];
      }
      ret := ret + [(ids[i], flags[i])];
      i := i + 1;
    }
  }

  /** As stored by add and change: the successors survive with their flags if and
      only if there are at least as many flags as successors. */
  lemma StoredSuccessorsIff(pipe: Pipeline, id: PplId, ids: seq<int>, flags: seq<int>)
    requires id in pipe && pipe[id].nextTasksId == PrintInts(ids) && pipe[id].isStartNext == PrintInts(flags)
    ensures (&& |NextTasks(pipe, id)| == |ids|
             && forall i :: 0 <= i < |ids| ==> i < |flags| && NextTasks(pipe, id)[i] == (ids[i], flags[i]))
       <==> |ids| <= |flags|
  {
    IntsRoundTrip(ids);
    IntsRoundTrip(flags);
  }

  /** The successors the callback tries to start, in order. One that does not exist
      ends the loop by an exception. */
  function StartList(pipe: Pipeline, pairs: seq<(int, int)>): (vs: seq<PplId>)
    ensures forall v :: v in vs ==> v in pipe && pipe[v].isEnabled
  {
    if pairs == [] then []
    else
      var (id, flag) := pairs[0];
      if flag == 0 then StartList(pipe, pairs[1..])
      else if id !in pipe then []
      else (if pipe[id].isEnabled then [id] else []) + StartList(pipe, pairs[1..])
  }

  /** What a completion of each node would start, among the nodes there are. */
  datatype Graph = Graph(nodes: set<PplId>, starts: PplId -> seq<PplId>)

  ghost predicate Closed(g: Graph) { forall u, v :: v in g.starts(u) ==> v in g.nodes }

  function GraphOf(pipe: Pipeline): (g: Graph)
    ensures Closed(g)
  {
    Graph(pipe.Keys, u => StartList(pipe, NextTasks(pipe, u)))
  }

  /** The places that are flagged and name an enabled node. */
  function ToStart(pipe: Pipeline, ids: seq<int>, flags: seq<int>): (mask: seq<bool>)
    requires |ids| <= |flags|
    ensures |mask| == |ids|
    ensures forall i :: 0 <= i < |ids| ==> (mask[i] <==> flags[i] != 0 && ids[i] in pipe && pipe[ids[i]].isEnabled)
  {
    seq(|ids|, i requires 0 <= i < |ids| => flags[i] != 0 && ids[i] in pipe && pipe[ids[i]].isEnabled)
  }

  /** Where the loop stops by an exception: the first flagged id without a row. */
  function FirstAbsent(pipe: Pipeline, ids: seq<int>, flags: seq<int>): (n: nat)
    requires |ids| <= |flags|
    ensures n <= |ids| && forall i :: 0 <= i < n && flags[i] != 0 ==> ids[i] in pipe
    ensures n < |ids| ==> flags[n] != 0 && ids[n] !in pipe
  {
    if ids == [] || (flags[0] != 0 && ids[0] !in pipe) then 0 else 1 + FirstAbsent(pipe, ids[1..], flags[1..])
  }

  lemma {:induction false} StartsFrom(pipe: Pipeline, ids: seq<int>, flags: seq<int>, i: nat)
    requires |ids| <= |flags| && i <= |ids|
    requires forall k :: 0 <= k < i && flags[k] != 0 ==> ids[k] in pipe
    ensures i <= FirstAbsent(pipe, ids, flags)
    ensures Filter(ids, ToStart(pipe, ids, flags), i) + StartList(pipe, Zip(ids, flags)[i..])
         == Filter(ids, ToStart(pipe, ids, flags), FirstAbsent(pipe, ids, flags))
    decreases |ids| - i
  {
    var pairs := Zip(ids, flags);
    var before := Filter(ids, ToStart(pipe, ids, flags), i);
    if i == |ids| || (flags[i] != 0 && ids[i] !in pipe) {
      StartsEnd(pipe, pairs, i, before);
    } else {
      StartsFrom(pipe, ids, flags, i + 1);
      if flags[i] != 0 && pipe[ids[i]].isEnabled {
        StartsNext(pipe, pairs, i, before);
      } else {
        StartsSkipped(pipe, pairs, i);
        assert before + [] == before;
      }
    }
  }

  /** A completion of u starts the flagged and enabled successors, in the order of the
      list, up to the first that is flagged and has no row; none if the flags are short. */
  lemma GraphStarts(pipe: Pipeline, u: PplId, ids: seq<int>, flags: seq<int>)
    requires u in pipe && Stores(pipe[u].nextTasksId, ids) && Stores(pipe[u].isStartNext, flags)
    ensures GraphOf(pipe).starts(u)
         == if |flags| < |ids| then [] else Filter(ids, ToStart(pipe, ids, flags), FirstAbsent(pipe, ids, flags))
  {
    StoredNext(pipe, u, ids, flags);
    if |ids| <= |flags| {
      assert Zip(ids, flags)[0..] == Zip(ids, flags);
      StartsFrom(pipe, ids, flags, 0);
      var starts := StartList(pipe, Zip(ids, flags));
      assert [] + starts == starts;
    }
  }

  /** How often v is listed with its flag set. */
  function Flagged(pairs: seq<(int, int)>, v: PplId): nat {
    if pairs == [] then 0
    else (if pairs[0].0 == v && pairs[0].1 != 0 then 1 else 0) + Flagged(pairs[1..], v)
  }

  function Count(vs: seq<PplId>, v: PplId): nat {
    if vs == [] then 0 else (if vs[0] == v then 1 else 0) + Count(vs[1..], v)
  }

  /** With every flagged successor present, v is started once for each flagged
      listing if it is enabled and not at all if it is not. */
  lemma {:induction false} StartsAreFlaggedAndEnabled(pipe: Pipeline, pairs: seq<(int, int)>, v: PplId)
    requires forall i :: 0 <= i < |pairs| && pairs[i].1 != 0 ==> pairs[i].0 in pipe
    ensures Count(StartList(pipe, pairs), v) == if v in pipe && pipe[v].isEnabled then Flagged(pairs, v) else 0
  {
    if pairs != [] {
      StartsAreFlaggedAndEnabled(pipe, pairs[1..], v);
      var rest := StartList(pipe, pairs[1..]);
      assert ([pairs[0].0] + rest)[1..] == rest;
      assert [] + rest == rest;
    }
  }

  // --------------------------------------------------------------- callback

  /** Whether the k-th attempt to start a task in this callback succeeds. */
  type Accepts = nat -> bool

  /** The rows task.start adds for the attempts that succeed. */
  function Launched(vs: seq<PplId>, u: PplId, accepts: Accepts): seq<Task> {
    if vs == [] then []
    else
      var n := |vs| - 1;
      Launched(vs[..n], u, accepts) + if accepts(n) then [Task(vs[n], Some(u), READY)] else []
  }

  lemma LaunchedMore(vs: seq<PplId>, v: PplId, u: PplId, accepts: Accepts)
    ensures Launched(vs + [v], u, accepts)
         == Launched(vs, u, accepts) + if accepts(|vs|) then [Task(v, Some(u), READY)] else []
  {
    assert (vs + [v])[..|vs|] == vs;
  }

  /** One turn of the loop: with a list like this, what is still to be started. */
  lemma StartsSkipped(pipe: Pipeline, pairs: seq<(int, int)>, i: nat)
    requires i < |pairs| && (pairs[i].1 == 0 || (pairs[i].0 in pipe && !pipe[pairs[i].0].isEnabled))
    ensures StartList(pipe, pairs[i..]) == StartList(pipe, pairs[i + 1..])
  {
    assert pairs[i..][1..] == pairs[i + 1..];
    assert [] + StartList(pipe, pairs[i + 1..]) == StartList(pipe, pairs[i + 1..]);
  }

  lemma StartsNext(pipe: Pipeline, pairs: seq<(int, int)>, i: nat, started: seq<PplId>)
    requires i < |pairs| && pairs[i].1 != 0 && pairs[i].0 in pipe && pipe[pairs[i].0].isEnabled
    ensures started + StartList(pipe, pairs[i..]) == (started + [pairs[i].0]) + StartList(pipe, pairs[i + 1..])
  {
    assert pairs[i..][1..] == pairs[i + 1..];
    Regroup(started, [pairs[i].0], StartList(pipe, pairs[i + 1..]));
  }

  lemma StartsEnd(pipe: Pipeline, pairs: seq<(int, int)>, i: nat, started: seq<PplId>)
    requires i <= |pairs| && (i < |pairs| ==> pairs[i].1 != 0 && pairs[i].0 !in pipe)
    ensures started + StartList(pipe, pairs[i..]) == started
  {
    assert started + [] == started;
  }

  lemma Regroup(a: seq<PplId>, b: seq<PplId>, c: seq<PplId>)
    ensures a + (b + c) == (a + b) + c
  {
  }

  /** Which of n attempts succeed. */
  function Accepted(accepts: Accepts, n: nat): (mask: seq<bool>)
    ensures |mask| == n && forall i :: 0 <= i < n ==> (mask[i] <==> accepts(i))
  {
    seq(n, i requires 0 <= i < n => accepts(i))
  }

  lemma {:induction false} LaunchedIs(vs: seq<PplId>, u: PplId, accepts: Accepts)
    ensures var started := Filter(vs, Accepted(accepts, |vs|), |vs|);
            |Launched(vs, u, accepts)| == |started|
            && forall j :: 0 <= j < |started| ==> Launched(vs, u, accepts)[j] == Task(started[j], Some(u), READY)
  {
    if vs != [] {
      var n := |vs| - 1;
      LaunchedIs(vs[..n], u, accepts);
      FilterPrefix(vs, Accepted(accepts, |vs|), n, n);
      assert Accepted(accepts, |vs|)[..n] == Accepted(accepts, n);
    }
  }

  /** The rows added by a completion of u, with its lists stored as ids and flags: of the
      flagged and enabled successors before the first flagged one without a row, those
      whose start is accepted, in the order of the list, ready and started by u. */
  ghost predicate StartedInOrder(pipe: Pipeline, u: PplId, ids: seq<int>, flags: seq<int>, accepts: Accepts,
                                 added: seq<Task>)
  {
    var attempts := if |flags| < |ids| then []
                    else Filter(ids, ToStart(pipe, ids, flags), FirstAbsent(pipe, ids, flags));
    var started := Filter(attempts, Accepted(accepts, |attempts|), |attempts|);
    |added| == |started| && forall j :: 0 <= j < |added| ==> added[j] == Task(started[j], Some(u), READY)
  }

  /** That, for whatever lists are stored; and nothing if u has no row. */
  ghost predicate RightlyStarted(pipe: Pipeline, u: PplId, accepts: Accepts, added: seq<Task>) {
    if u !in pipe then added == []
    else forall ids, flags :: Stores(pipe[u].nextTasksId, ids) && Stores(pipe[u].isStartNext, flags) ==>
           StartedInOrder(pipe, u, ids, flags, accepts, added)
  }

  lemma CompletionStarts(pipe: Pipeline, u: PplId, accepts: Accepts)
    ensures RightlyStarted(pipe, u, accepts, Launched(GraphOf(pipe).starts(u), u, accepts))
  {
    if u in pipe {
      forall ids, flags | Stores(pipe[u].nextTasksId, ids) && Stores(pipe[u].isStartNext, flags)
        ensures StartedInOrder(pipe, u, ids, flags, accepts, Launched(GraphOf(pipe).starts(u), u, accepts))
      {
        GraphStarts(pipe, u, ids, flags);
        LaunchedIs(GraphOf(pipe).starts(u), u, accepts);
      }
    }
  }

  function IdsOf(tasks: seq<Task>): (ids: seq<PplId>)
    ensures |ids| == |tasks|
  {
    seq(|tasks|, j requires 0 <= j < |tasks| => tasks[j].pplTaskId)
  }

  function FlaggedAt(flags: seq<int>): (mask: seq<bool>)
    ensures |mask| == |flags| && forall i :: 0 <= i < |flags| ==> (mask[i] <==> flags[i] != 0)
  {
    seq(|flags|, i requires 0 <= i < |flags| => flags[i] != 0)
  }

  function EveryPlace(n: nat): (mask: seq<bool>)
    ensures |mask| == n && forall i :: 0 <= i < n ==> mask[i]
  {
    seq(n, i => true)
  }

  /** With every flagged successor present and every start accepted, an enabled node gets
      a row for each place where it is listed and flagged, a disabled one gets none. */
  lemma StartedPerListing(pipe: Pipeline, u: PplId, ids: seq<int>, flags: seq<int>, accepts: Accepts,
                          added: seq<Task>, v: PplId)
    requires StartedInOrder(pipe, u, ids, flags, accepts, added) && |ids| <= |flags|
    requires (forall i :: 0 <= i < |ids| && flags[i] != 0 ==> ids[i] in pipe) && forall n: nat :: accepts(n)
    ensures |Places(IdsOf(added), EveryPlace(|added|), |added|, v)|
         == if v in pipe && pipe[v].isEnabled then |Places(ids, FlaggedAt(flags), |ids|, v)| else 0
  {
    assert FirstAbsent(pipe, ids, flags) == |ids|;
    var started := Filter(ids, ToStart(pipe, ids, flags), |ids|);
    AllAccepted(started, u, accepts, added);
    FilterAll(started, EveryPlace(|started|), |started|);
    assert started[..|started|] == started;
    FilterCounts(started, EveryPlace(|started|), |started|, v);
    FilterCounts(ids, ToStart(pipe, ids, flags), |ids|, v);
    PlacesToStart(pipe, ids, flags, v);
  }

  lemma AllAccepted(attempts: seq<PplId>, u: PplId, accepts: Accepts, added: seq<Task>)
    requires forall n: nat :: accepts(n)
    requires |added| == |Filter(attempts, Accepted(accepts, |attempts|), |attempts|)|
    requires forall j :: 0 <= j < |added| ==> added[j] == Task(Filter(attempts, Accepted(accepts, |attempts|), |attempts|)[j], Some(u), READY)
    ensures IdsOf(added) == attempts
  {
    FilterAll(attempts, Accepted(accepts, |attempts|), |attempts|);
    assert attempts[..|attempts|] == attempts;
  }

  lemma PlacesToStart(pipe: Pipeline, ids: seq<int>, flags: seq<int>, v: PplId)
    requires |ids| <= |flags|
    ensures Places(ids, ToStart(pipe, ids, flags), |ids|, v)
         == if v in pipe && pipe[v].isEnabled then Places(ids, FlaggedAt(flags), |ids|, v) else {}
  {
  }

  function AfterCallback(g: Graph, tasks: seq<Task>, tId: nat, newState: StateType, accepts: Accepts): seq<Task>
    requires tId < |tasks|
  {
    var u := tasks[tId].pplTaskId;
    tasks[tId := tasks[tId].(state := newState)]
    + if newState == COMPLETED then Launched(g.starts(u), u, accepts) else []
  }

  class Server {
    const pipe: Pipeline
    var tasks: seq<Task>
    var changed: set<PplId>

    constructor (pipe: Pipeline, tasks: seq<Task>)
      ensures this.pipe == pipe && this.tasks == tasks && changed == {}
    {
      this.pipe := pipe;
      this.tasks := tasks;
      changed := {};
    }

    /** The row task.start adds for a user or an event. */
    method StartExternally(v: PplId)
      modifies this`tasks
      ensures tasks == old(tasks) + [Task(v, None, READY)]
    {
      tasks := tasks + [Task(v, None, READY)];
    }

    /** An unknown task id fails before anything is written. */
    method TaskChangeCBack(tId: nat, newState: StateType, accepts: Accepts)
      modifies this
      ensures tId >= |old(tasks)| ==> tasks == old(tasks) && changed == old(changed)
      ensures tId < |old(tasks)| ==>
                && tasks == AfterCallback(GraphOf(pipe), old(tasks), tId, newState, accepts)
                && changed == old(changed) + {old(tasks)[tId].pplTaskId}
      ensures tId < |old(tasks)| ==>
                && |old(tasks)| <= |tasks|
                && tasks[..|old(tasks)|] == old(tasks)[tId := old(tasks)[tId].(state := newState)]
                && (newState != COMPLETED ==> |tasks| == |old(tasks)|)
      ensures tId < |old(tasks)| && newState == COMPLETED ==>
                RightlyStarted(pipe, old(tasks)[tId].pplTaskId, accepts, tasks[|old(tasks)|..])
    {
      if tId >= |tasks| {
        return;
      }
      tasks := tasks[tId := tasks[tId].(state := newState)];
      var u := tasks[tId].pplTaskId;
      changed := changed + {u};
      if newState == COMPLETED {
        var nextTasks := GetNextTasks(pipe, u);
        StartNext(u, nextTasks, accepts);
        CompletionStarts(pipe, u, accepts);
        assert tasks[|old(tasks)|..] == Launched(GraphOf(pipe).starts(u), u, accepts);
      }
    }

    /** The loop over the successors. */
    method StartNext(u: PplId, nextTasks: seq<(int, int)>, accepts: Accepts)
      modifies this`tasks
      ensures tasks == old(tasks) + Launched(StartList(pipe, nextTasks), u, accepts)
    {
      ghost var started := [];
      var attempts := 0;
      var i := 0;
      while i < |nextTasks|
        invariant 0 <= i <= |nextTasks|
        invariant attempts == |started|
        invariant started + StartList(pipe, nextTasks[i..]) == StartList(pipe, nextTasks)
        invariant tasks == old(tasks) + Launched(started, u, accepts)
      {
        var (nextTaskId, isStartNext) := nextTasks[i];
        if isStartNext != 0 {
          if nextTaskId !in pipe {
            StartsEnd(pipe, nextTasks, i, started);
            return;
          }
          if pipe[nextTaskId].isEnabled {
            StartsNext(pipe, nextTasks, i, started);
            LaunchedMore(started, nextTaskId, u, accepts);
            if accepts(attempts) {
              tasks := tasks + [Task(nextTaskId, Some(u), READY)];
            }
            attempts := attempts + 1;
            started := started + [nextTaskId];
          } else {
            StartsSkipped(pipe, nextTasks, i);
          }
        } else {
          StartsSkipped(pipe, nextTasks, i);
        }
        i := i + 1;
      }
      StartsEnd(pipe, nextTasks, i, started);
    }
  }

  // ------------------------------------------------------------------- runs

  /** An external start (a user or an event), or the delivery of a state change. */
  datatype Event = External(v: PplId) | Report(tId: nat, newState: StateType, accepts: Accepts)

  /** A terminal state is delivered once per task. */
  predicate Deliverable(tasks: seq<Task>, e: Event) {
    e.Report? ==> e.tId < |tasks| && !Terminal(tasks[e.tId].state)
  }

  function Handle(g: Graph, tasks: seq<Task>, e: Event): seq<Task>
    requires Deliverable(tasks, e)
  {
    match e
    case External(v) => tasks + [Task(v, None, READY)]
    case Report(tId, newState, accepts) => AfterCallback(g, tasks, tId, newState, accepts)
  }

  ghost predicate IsRun(g: Graph, tables: seq<seq<Task>>, events: seq<Event>) {
    && |tables| == |events| + 1
    && forall k {:trigger events[k]} :: 0 <= k < |events| ==>
         Deliverable(tables[k], events[k]) && tables[k + 1] == Handle(g, tables[k], events[k])
  }

  /** The callbacks and external starts of a run, one after the other. */
  method Drive(pipe: Pipeline, events: seq<Event>, ghost tables: seq<seq<Task>>) returns (server: Server)
    requires IsRun(GraphOf(pipe), tables, events) && tables[0] == []
    ensures server.pipe == pipe && server.tasks == tables[|events|]
  {
    server := new Server(pipe, []);
    for k := 0 to |events|
      invariant fresh(server) && server.pipe == pipe && server.tasks == tables[k]
    {
      assert Deliverable(tables[k], events[k]) && tables[k + 1] == Handle(GraphOf(pipe), tables[k], events[k]);
      match events[k] {
        case External(v) => server.StartExternally(v);
        case Report(tId, newState, accepts) => server.TaskChangeCBack(tId, newState, accepts);
      }
    }
  }
}
