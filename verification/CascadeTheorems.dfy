/**
 Whole runs of the pipeline cascade: which starts there are and why, and when a
 cascade must come to an end.
 */
module CascadeTheorems {
  import opened Basics
  import opened States
  import opened Cascade

  // -------------------------------------------------------------- tallying rows

  function Tally(tasks: seq<Task>, f: Task -> nat): nat {
    if tasks == [] then 0 else Tally(tasks[..|tasks| - 1], f) + f(tasks[|tasks| - 1])
  }

  lemma {:induction false} TallyAppend(a: seq<Task>, b: seq<Task>, f: Task -> nat)
    ensures Tally(a + b, f) == Tally(a, f) + Tally(b, f)
  {
    if b == [] {
      assert a + b == a;
    } else {
      TallyAppend(a, b[..|b| - 1], f);
      assert (a + b)[..|a + b| - 1] == a + b[..|b| - 1];
    }
  }

  lemma {:induction false} TallyUpdate(a: seq<Task>, i: nat, t: Task, f: Task -> nat)
    requires i < |a|
    ensures Tally(a[i := t], f) + f(a[i]) == Tally(a, f) + f(t)
  {
    var n := |a| - 1;
    if i < n {
      TallyUpdate(a[..n], i, t, f);
      assert a[i := t][..n] == a[..n][i := t];
    } else {
      assert a[i := t][..n] == a[..n];
    }
  }

  /** Reporting a state changes one row and adds what was launched. */
  lemma TallyCallback(g: Graph, tasks: seq<Task>, tId: nat, newState: StateType, accepts: Accepts, f: Task -> nat)
    requires tId < |tasks|
    ensures
      var t := tasks[tId];
      var launched := if newState == COMPLETED then Launched(g.starts(t.pplTaskId), t.pplTaskId, accepts) else [];
      Tally(AfterCallback(g, tasks, tId, newState, accepts), f) + f(t)
      == Tally(tasks, f) + f(t.(state := newState)) + Tally(launched, f)
  {
    var t := tasks[tId];
    var launched := if newState == COMPLETED then Launched(g.starts(t.pplTaskId), t.pplTaskId, accepts) else [];
    TallyUpdate(tasks, tId, t.(state := newState), f);
    TallyAppend(tasks[tId := t.(state := newState)], launched, f);
  }

  // --------------------------------------------------------------- conservation

  function StartedBy(v: PplId, starter: Option<PplId>): Task -> nat {
    (t: Task) => if t.pplTaskId == v && t.starterPplTaskId == starter then 1 else 0
  }

  function CompletedOf(u: PplId): Task -> nat {
    (t: Task) => if t.pplTaskId == u && t.state == COMPLETED then 1 else 0
  }

  /** Every completion of u owes v one start per flagged listing. */
  function OwedTo(g: Graph, v: PplId): Task -> nat {
    (t: Task) => if t.state == COMPLETED then Listings(g, t.pplTaskId, v) else 0
  }

  /** How often a completion of u starts v. */
  function Listings(g: Graph, u: PplId, v: PplId): nat {
    Count(g.starts(u), v)
  }

  function StartOf(v: PplId): Task -> nat {
    (t: Task) => if t.pplTaskId == v then 1 else 0
  }

  function Externals(events: seq<Event>, v: PplId): nat {
    if events == [] then 0
    else Externals(events[..|events| - 1], v) + if events[|events| - 1] == External(v) then 1 else 0
  }

  ghost predicate AllAccept(e: Event) { e.Report? ==> forall n: nat :: e.accepts(n) }

  lemma {:induction false} CountSnoc(vs: seq<PplId>, x: PplId, v: PplId)
    ensures Count(vs + [x], v) == Count(vs, v) + if x == v then 1 else 0
  {
    if vs != [] {
      CountSnoc(vs[1..], x, v);
      assert (vs + [x])[1..] == vs[1..] + [x];
    }
  }

  /** A row that task.start adds. */
  function NewRow(w: PplId, u: PplId): Task { Task(w, Some(u), READY) }

  lemma {:induction false} LaunchedCount(vs: seq<PplId>, u: PplId, accepts: Accepts, v: PplId, f: Task -> nat)
    requires forall w :: f(NewRow(w, u)) == if w == v then 1 else 0
    ensures Tally(Launched(vs, u, accepts), f) <= Count(vs, v)
    ensures (forall n: nat :: accepts(n)) ==> Tally(Launched(vs, u, accepts), f) == Count(vs, v)
  {
    if vs != [] {
      var n := |vs| - 1;
      LaunchedCount(vs[..n], u, accepts, v, f);
      CountSnoc(vs[..n], vs[n], v);
      assert vs == vs[..n] + [vs[n]];
      LaunchedSnoc(vs, u, accepts, f);
    }
  }

  lemma {:induction false} LaunchedNone(vs: seq<PplId>, u: PplId, accepts: Accepts, f: Task -> nat)
    requires forall w :: f(NewRow(w, u)) == 0
    ensures Tally(Launched(vs, u, accepts), f) == 0
  {
    if vs != [] {
      LaunchedNone(vs[..|vs| - 1], u, accepts, f);
      LaunchedSnoc(vs, u, accepts, f);
    }
  }

  lemma LaunchedSnoc(vs: seq<PplId>, u: PplId, accepts: Accepts, f: Task -> nat)
    requires vs != []
    ensures
      var n := |vs| - 1;
      Tally(Launched(vs, u, accepts), f)
      == Tally(Launched(vs[..n], u, accepts), f) + if accepts(n) then f(NewRow(vs[n], u)) else 0
  {
    var n := |vs| - 1;
    var before := Launched(vs[..n], u, accepts);
    if accepts(n) {
      assert (before + [NewRow(vs[n], u)])[..|before|] == before;
    } else {
      assert before + [] == before;
    }
  }

  /** The event reports the completion of a task of node u. */
  predicate Completes(tasks: seq<Task>, e: Event, u: PplId) {
    e.Report? && e.tId < |tasks| && tasks[e.tId].pplTaskId == u && e.newState == COMPLETED
  }

  lemma One(t: Task, f: Task -> nat)
    ensures Tally([t], f) == f(t)
  {
    assert [t][..0] == [];
  }

  lemma CompletedStep(g: Graph, tasks: seq<Task>, e: Event, u: PplId)
    requires Deliverable(tasks, e)
    ensures Tally(Handle(g, tasks, e), CompletedOf(u))
         == Tally(tasks, CompletedOf(u)) + if Completes(tasks, e, u) then 1 else 0
  {
    match e {
      case External(x) =>
        TallyAppend(tasks, [Task(x, None, READY)], CompletedOf(u));
        One(Task(x, None, READY), CompletedOf(u));
      case Report(tId, st, accepts) =>
        var w := tasks[tId].pplTaskId;
        TallyCallback(g, tasks, tId, st, accepts, CompletedOf(u));
        LaunchedNone(g.starts(w), w, accepts, CompletedOf(u));
    }
  }

  lemma StartedByStep(g: Graph, tasks: seq<Task>, e: Event, u: PplId, v: PplId)
    requires Deliverable(tasks, e)
    ensures
      var before, after := Tally(tasks, StartedBy(v, Some(u))), Tally(Handle(g, tasks, e), StartedBy(v, Some(u)));
      var owed := if Completes(tasks, e, u) then Listings(g, u, v) else 0;
      after <= before + owed && (AllAccept(e) ==> after == before + owed)
    ensures Tally(Handle(g, tasks, e), StartedBy(v, None))
         == Tally(tasks, StartedBy(v, None)) + if e == External(v) then 1 else 0
  {
    match e {
      case External(x) =>
        TallyAppend(tasks, [Task(x, None, READY)], StartedBy(v, Some(u)));
        TallyAppend(tasks, [Task(x, None, READY)], StartedBy(v, None));
        One(Task(x, None, READY), StartedBy(v, Some(u)));
        One(Task(x, None, READY), StartedBy(v, None));
      case Report(tId, st, accepts) =>
        var w := tasks[tId].pplTaskId;
        TallyCallback(g, tasks, tId, st, accepts, StartedBy(v, Some(u)));
        TallyCallback(g, tasks, tId, st, accepts, StartedBy(v, None));
        if w == u {
          LaunchedCount(g.starts(w), w, accepts, v, StartedBy(v, Some(u)));
        } else {
          LaunchedNone(g.starts(w), w, accepts, StartedBy(v, Some(u)));
        }
        LaunchedNone(g.starts(w), w, accepts, StartedBy(v, None));
    }
  }

  /** One step of a run. */
  lemma RunStep(g: Graph, tables: seq<seq<Task>>, events: seq<Event>, k: nat)
    requires IsRun(g, tables, events) && k < |events|
    ensures Deliverable(tables[k], events[k]) && tables[k + 1] == Handle(g, tables[k], events[k])
  {
  }

  lemma ExternalsSnoc(events: seq<Event>, k: nat, v: PplId)
    requires k < |events|
    ensures Externals(events[..k + 1], v) == Externals(events[..k], v) + if events[k] == External(v) then 1 else 0
  {
    assert events[..k + 1][..k] == events[..k];
  }

  lemma OneMore(c: nat, m: nat)
    ensures (c + 1) * m == c * m + m
  {
  }

  /** What completions of u owe v. */
  function EdgeOwes(g: Graph, tasks: seq<Task>, u: PplId, v: PplId): nat {
    Tally(tasks, CompletedOf(u)) * Listings(g, u, v)
  }

  /** The edge's account after one event, given the account before it. */
  lemma EdgeStep(g: Graph, tasks: seq<Task>, e: Event, u: PplId, v: PplId)
    requires Deliverable(tasks, e) && Tally(tasks, StartedBy(v, Some(u))) <= EdgeOwes(g, tasks, u, v)
    ensures Tally(Handle(g, tasks, e), StartedBy(v, Some(u))) <= EdgeOwes(g, Handle(g, tasks, e), u, v)
    ensures AllAccept(e) && Tally(tasks, StartedBy(v, Some(u))) == EdgeOwes(g, tasks, u, v) ==>
              Tally(Handle(g, tasks, e), StartedBy(v, Some(u))) == EdgeOwes(g, Handle(g, tasks, e), u, v)
  {
    StartedByStep(g, tasks, e, u, v);
    CompletedStep(g, tasks, e, u);
    OneMore(Tally(tasks, CompletedOf(u)), Listings(g, u, v));
  }

  lemma EdgeStepAt(g: Graph, tables: seq<seq<Task>>, events: seq<Event>, k: nat, u: PplId, v: PplId)
    requires IsRun(g, tables, events) && k < |events|
    requires Tally(tables[k], StartedBy(v, Some(u))) <= EdgeOwes(g, tables[k], u, v)
    requires Tally(tables[k], StartedBy(v, None)) == Externals(events[..k], v)
    ensures Tally(tables[k + 1], StartedBy(v, Some(u))) <= EdgeOwes(g, tables[k + 1], u, v)
    ensures AllAccept(events[k]) && Tally(tables[k], StartedBy(v, Some(u))) == EdgeOwes(g, tables[k], u, v) ==>
              Tally(tables[k + 1], StartedBy(v, Some(u))) == EdgeOwes(g, tables[k + 1], u, v)
    ensures Tally(tables[k + 1], StartedBy(v, None)) == Externals(events[..k + 1], v)
  {
    RunStep(g, tables, events, k);
    EdgeStep(g, tables[k], events[k], u, v);
    StartedByStep(g, tables[k], events[k], u, v);
    ExternalsSnoc(events, k, v);
  }

  /** CONSERVATION, edge by edge. From an empty table, the starts of v made on
      behalf of u are at most the completions of u times the flagged listings of
      v under u, and exactly that if every start succeeds; ERROR and STOP start
      nothing; and the starts made on nobody's behalf are the external ones. */
  lemma {:induction false} EdgeConservation(g: Graph, tables: seq<seq<Task>>, events: seq<Event>, k: nat,
                                            u: PplId, v: PplId)
    requires IsRun(g, tables, events) && tables[0] == [] && k <= |events|
    ensures Tally(tables[k], StartedBy(v, Some(u))) <= EdgeOwes(g, tables[k], u, v)
    ensures (forall j :: 0 <= j < k ==> AllAccept(events[j])) ==>
              Tally(tables[k], StartedBy(v, Some(u))) == EdgeOwes(g, tables[k], u, v)
    ensures Tally(tables[k], StartedBy(v, None)) == Externals(events[..k], v)
  {
    if k > 0 {
      EdgeConservation(g, tables, events, k - 1, u, v);
      EdgeStepAt(g, tables, events, k - 1, u, v);
    }
  }

  lemma OwedStep(g: Graph, tasks: seq<Task>, e: Event, v: PplId)
    requires Deliverable(tasks, e)
    ensures
      var owed := if e.Report? && e.newState == COMPLETED then Listings(g, tasks[e.tId].pplTaskId, v) else 0;
      var external := if e == External(v) then 1 else 0;
      var before, after := Tally(tasks, StartOf(v)), Tally(Handle(g, tasks, e), StartOf(v));
      && Tally(Handle(g, tasks, e), OwedTo(g, v)) == Tally(tasks, OwedTo(g, v)) + owed
      && after <= before + owed + external
      && (AllAccept(e) ==> after == before + owed + external)
  {
    match e {
      case External(x) =>
        TallyAppend(tasks, [Task(x, None, READY)], StartOf(v));
        TallyAppend(tasks, [Task(x, None, READY)], OwedTo(g, v));
        One(Task(x, None, READY), StartOf(v));
        One(Task(x, None, READY), OwedTo(g, v));
      case Report(tId, st, accepts) =>
        var w := tasks[tId].pplTaskId;
        TallyCallback(g, tasks, tId, st, accepts, StartOf(v));
        TallyCallback(g, tasks, tId, st, accepts, OwedTo(g, v));
        LaunchedCount(g.starts(w), w, accepts, v, StartOf(v));
        LaunchedNone(g.starts(w), w, accepts, OwedTo(g, v));
    }
  }

  lemma NodeStepAt(g: Graph, tables: seq<seq<Task>>, events: seq<Event>, k: nat, v: PplId)
    requires IsRun(g, tables, events) && k < |events|
    requires Tally(tables[k], StartOf(v)) <= Externals(events[..k], v) + Tally(tables[k], OwedTo(g, v))
    ensures Tally(tables[k + 1], StartOf(v)) <= Externals(events[..k + 1], v) + Tally(tables[k + 1], OwedTo(g, v))
    ensures AllAccept(events[k]) ==>
              Tally(tables[k], StartOf(v)) == Externals(events[..k], v) + Tally(tables[k], OwedTo(g, v)) ==>
              Tally(tables[k + 1], StartOf(v)) == Externals(events[..k + 1], v) + Tally(tables[k + 1], OwedTo(g, v))
  {
    RunStep(g, tables, events, k);
    ExternalsSnoc(events, k, v);
    OwedStep(g, tables[k], events[k], v);
  }

  /** CONSERVATION, node by node. When every start succeeds, the starts of v are
      its external starts plus, over every completed task, one per flagged
      listing of v under that task's pipeline node. */
  lemma {:induction false} NodeConservation(g: Graph, tables: seq<seq<Task>>, events: seq<Event>, k: nat, v: PplId)
    requires IsRun(g, tables, events) && tables[0] == [] && k <= |events|
    ensures Tally(tables[k], StartOf(v)) <= Externals(events[..k], v) + Tally(tables[k], OwedTo(g, v))
    ensures (forall j :: 0 <= j < k ==> AllAccept(events[j])) ==>
              Tally(tables[k], StartOf(v)) == Externals(events[..k], v) + Tally(tables[k], OwedTo(g, v))
  {
    if k > 0 {
      NodeConservation(g, tables, events, k - 1, v);
      NodeStepAt(g, tables, events, k - 1, v);
    }
  }

  // ---------------------------------------------------------------- termination

  predicate IsPath(g: Graph, p: seq<PplId>) {
    |p| >= 2 && p[1] in g.starts(p[0]) && (|p| > 2 ==> IsPath(g, p[1..]))
  }

  ghost predicate Reaches(g: Graph, u: PplId, v: PplId) {
    exists p: seq<PplId> :: IsPath(g, p) && p[0] == u && p[|p| - 1] == v
  }

  /** No enabled start-next edges lead from a node back to itself. */
  ghost predicate Acyclic(g: Graph) {
    forall u :: !Reaches(g, u, u)
  }

  ghost function Reach(g: Graph, u: PplId): set<PplId> {
    set v | v in g.nodes && Reaches(g, u, v)
  }

  lemma EdgeReaches(g: Graph, u: PplId, v: PplId)
    requires v in g.starts(u)
    ensures Reaches(g, u, v)
    ensures forall w :: Reaches(g, v, w) ==> Reaches(g, u, w)
  {
    assert IsPath(g, [u, v]);
    forall w | Reaches(g, v, w) ensures Reaches(g, u, w) {
      var p: seq<PplId> :| IsPath(g, p) && p[0] == v && p[|p| - 1] == w;
      var q := [u] + p;
      assert q[1..] == p;
      assert IsPath(g, q) && q[0] == u && q[|q| - 1] == w;
    }
  }

  /** Following an edge leaves strictly fewer nodes to reach. */
  lemma EdgeShrinksReach(g: Graph, u: PplId, v: PplId)
    requires Closed(g) && Acyclic(g) && v in g.starts(u)
    ensures Reach(g, v) < Reach(g, u)
  {
    EdgeReaches(g, u, v);
    assert v in Reach(g, u) && v !in Reach(g, v);
  }

  /** One for the task itself and the weights of all it would start. */
  ghost function Weight(g: Graph, u: PplId): nat
    requires Closed(g) && Acyclic(g)
    decreases Reach(g, u), |g.starts(u)| + 1
  {
    1 + WeightOf(g, u, |g.starts(u)|)
  }

  /** The weights of the first n successors. */
  ghost function WeightOf(g: Graph, u: PplId, n: nat): nat
    requires Closed(g) && Acyclic(g) && n <= |g.starts(u)|
    decreases Reach(g, u), n
  {
    if n == 0 then 0
    else
      EdgeShrinksReach(g, u, g.starts(u)[n - 1]);
      WeightOf(g, u, n - 1) + Weight(g, g.starts(u)[n - 1])
  }

  /** What a row still weighs: nothing once its state is terminal. */
  ghost function Pull(g: Graph): Task -> nat
    requires Closed(g) && Acyclic(g)
  {
    (t: Task) => if Terminal(t.state) then 0 else Weight(g, t.pplTaskId)
  }

  lemma {:induction false} LaunchedWeight(g: Graph, u: PplId, accepts: Accepts, n: nat)
    requires Closed(g) && Acyclic(g) && n <= |g.starts(u)|
    ensures Tally(Launched(g.starts(u)[..n], u, accepts), Pull(g)) <= WeightOf(g, u, n)
  {
    if n > 0 {
      var vs := g.starts(u)[..n];
      assert vs[..n - 1] == g.starts(u)[..n - 1];
      LaunchedWeight(g, u, accepts, n - 1);
      var t := Task(vs[n - 1], Some(u), READY);
      TallyAppend(Launched(vs[..n - 1], u, accepts), if accepts(n - 1) then [t] else [], Pull(g));
      One(t, Pull(g));
    }
  }

  /** Each terminal report takes at least one off the weight of what is running. */
  lemma ReportLightens(g: Graph, tasks: seq<Task>, e: Event)
    requires Closed(g) && Acyclic(g) && e.Report? && Deliverable(tasks, e)
    ensures Tally(Handle(g, tasks, e), Pull(g)) + (if Terminal(e.newState) then 1 else 0) <= Tally(tasks, Pull(g))
  {
    var u := tasks[e.tId].pplTaskId;
    TallyCallback(g, tasks, e.tId, e.newState, e.accepts, Pull(g));
    LaunchedWeight(g, u, e.accepts, |g.starts(u)|);
    assert g.starts(u)[..|g.starts(u)|] == g.starts(u);
  }

  lemma RunLightens(g: Graph, tables: seq<seq<Task>>, events: seq<Event>, k: nat)
    requires Closed(g) && Acyclic(g) && IsRun(g, tables, events) && k < |events| && events[k].Report?
    ensures Tally(tables[k + 1], Pull(g)) + (if Terminal(events[k].newState) then 1 else 0) <= Tally(tables[k], Pull(g))
  {
    RunStep(g, tables, events, k);
    ReportLightens(g, tables[k], events[k]);
  }

  function TerminalReports(events: seq<Event>): nat {
    if events == [] then 0
    else TerminalReports(events[..|events| - 1])
         + if events[|events| - 1].Report? && Terminal(events[|events| - 1].newState) then 1 else 0
  }

  predicate NoExternal(events: seq<Event>) {
    forall k :: 0 <= k < |events| ==> events[k].Report?
  }

  lemma {:induction false} CascadeBounded(g: Graph, tables: seq<seq<Task>>, events: seq<Event>, k: nat)
    requires Closed(g) && Acyclic(g) && IsRun(g, tables, events) && NoExternal(events) && k <= |events|
    ensures Tally(tables[k], Pull(g)) + TerminalReports(events[..k]) <= Tally(tables[0], Pull(g))
  {
    if k > 0 {
      CascadeBounded(g, tables, events, k - 1);
      RunLightens(g, tables, events, k - 1);
      assert events[..k][..k - 1] == events[..k - 1];
    }
  }

  /** From this table no cascade has more than bound terminal reports. */
  ghost predicate EndsWithin(g: Graph, tasks: seq<Task>, bound: nat) {
    forall tables, events :: IsRun(g, tables, events) && tables[0] == tasks && NoExternal(events) ==>
      TerminalReports(events) <= bound
  }

  ghost predicate Ends(g: Graph, tasks: seq<Task>) {
    exists bound: nat :: EndsWithin(g, tasks, bound)
  }

  /** A node on a cycle keeps a cascade going for as long as one likes. */
  lemma {:induction false} CycleGoesOn(g: Graph, u: PplId, n: nat)
    returns (tables: seq<seq<Task>>, events: seq<Event>, tId: nat)
    requires Reaches(g, u, u)
    ensures IsRun(g, tables, events) && NoExternal(events)
    ensures tables[0] == [Task(u, None, READY)] && TerminalReports(events) == n && |events| == n
    ensures tId < |tables[n]| && tables[n][tId].state == READY
    ensures Reaches(g, tables[n][tId].pplTaskId, tables[n][tId].pplTaskId)
  {
    if n == 0 {
      tables, events, tId := [[Task(u, None, READY)]], [], 0;
    } else {
      var tables0, events0, id := CycleGoesOn(g, u, n - 1);
      var tasks := tables0[n - 1];
      var w := tasks[id].pplTaskId;
      var accepts: Accepts := (k: nat) => true;
      var e := Report(id, COMPLETED, accepts);
      var v := CycleSuccessor(g, w);
      var i := LaunchesEach(g.starts(w), w, accepts, v);
      var after := Handle(g, tasks, e);
      tables, events := tables0 + [after], events0 + [e];
      tId := |tasks| + i;
      assert after[tId] == Task(v, Some(w), READY);
      RunExtends(g, tables0, events0, e);
      assert events[..n - 1] == events0;
    }
  }

  lemma RunExtends(g: Graph, tables: seq<seq<Task>>, events: seq<Event>, e: Event)
    requires IsRun(g, tables, events) && Deliverable(tables[|events|], e)
    ensures IsRun(g, tables + [Handle(g, tables[|events|], e)], events + [e])
  {
  }

  lemma {:induction false} PathSnoc(g: Graph, p: seq<PplId>, v: PplId)
    requires IsPath(g, p) && v in g.starts(p[|p| - 1])
    ensures IsPath(g, p + [v])
  {
    assert (p + [v])[1..] == p[1..] + [v];
    if |p| > 2 {
      PathSnoc(g, p[1..], v);
    } else {
      assert p[1..] + [v] == [p[1], v];
    }
  }

  lemma ReachesOn(g: Graph, u: PplId, w: PplId, v: PplId)
    requires Reaches(g, u, w) && v in g.starts(w)
    ensures Reaches(g, u, v)
  {
    var p: seq<PplId> :| IsPath(g, p) && p[0] == u && p[|p| - 1] == w;
    var q := p + [v];
    PathSnoc(g, p, v);
    assert IsPath(g, q) && q[0] == u && q[|q| - 1] == v;
  }

  lemma CycleSuccessor(g: Graph, w: PplId) returns (v: PplId)
    requires Reaches(g, w, w)
    ensures v in g.starts(w) && Reaches(g, v, v)
  {
    var p: seq<PplId> :| IsPath(g, p) && p[0] == w && p[|p| - 1] == w;
    v := p[1];
    if |p| > 2 {
      var q := p[1..];
      assert IsPath(g, q) && q[0] == v && q[|q| - 1] == w;
      ReachesOn(g, v, w, v);
    }
  }

  lemma {:induction false} LaunchesEach(vs: seq<PplId>, u: PplId, accepts: Accepts, v: PplId) returns (i: nat)
    requires v in vs && forall n: nat :: accepts(n)
    ensures var all := Launched(vs, u, accepts);
            i < |all| && all[i] == Task(v, Some(u), READY)
  {
    var n := |vs| - 1;
    if vs[n] == v {
      i := |Launched(vs[..n], u, accepts)|;
    } else {
      assert v in vs[..n];
      i := LaunchesEach(vs[..n], u, accepts, v);
    }
  }

  /** TERMINATION. Every cascade, from any table of running tasks, is bounded if and
      only if the flagged and enabled edges form no cycle. */
  lemma CascadesEndIff(g: Graph)
    requires Closed(g)
    ensures Acyclic(g) <==> forall tasks :: Ends(g, tasks)
  {
    if Acyclic(g) {
      forall tasks ensures Ends(g, tasks) {
        forall tables, events | IsRun(g, tables, events) && tables[0] == tasks && NoExternal(events)
          ensures TerminalReports(events) <= Tally(tasks, Pull(g))
        {
          CascadeBounded(g, tables, events, |events|);
          assert events[..|events|] == events;
        }
        assert EndsWithin(g, tasks, Tally(tasks, Pull(g)));
      }
    } else {
      var u :| Reaches(g, u, u);
      forall bound: nat ensures !EndsWithin(g, [Task(u, None, READY)], bound) {
        var tables, events, _ := CycleGoesOn(g, u, bound + 1);
      }
      assert !Ends(g, [Task(u, None, READY)]);
    }
  }
}
