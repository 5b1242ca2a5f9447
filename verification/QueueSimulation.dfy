/**
 The two-lock queue refines the atomic one: every step of every thread either
 leaves the atomic queue alone or is the instant one call takes effect. push
 takes effect where it moves tail_, a pop (successful or not) where it
 decrements sz_, front and empty where they read tail_, size where it reads sz_.
 */
module QueueSimulation {
  import opened Basics
  import opened QueueSpec
  import opened ConcurrentQueue

  /** What a thread at pc relies on is kept: the head node stays, the chain is only
      extended, and tail_ moves only if that thread is not relying on it. */
  predicate Undisturbed<T(==)>(c: State<T>, chain: seq<Addr>, c': State<T>, chain': seq<Addr>, pc: Pc<T>)
    requires c.head in c.heap && c'.head in c'.heap
  {
    HoldsHead(pc) && !pc.PopHead? && !pc.PopBoth? && !pc.PopUnlinked? && !pc.FrontHead? && !pc.FrontBoth? ==>
      && c'.head == c.head
      && |chain| <= |chain'|
      && (forall x :: x in chain ==> x in chain')
      && (|chain| >= 2 ==> c'.heap[c.head].data == c.heap[c.head].data)
      && (pc.PopCounted? ==> c'.tail == c.tail)
  }

  lemma AgreesFrame<T>(c: State<T>, chain: seq<Addr>, c': State<T>, chain': seq<Addr>, pc: Pc<T>, ph: Phase<T>)
    requires Linked(c, chain) && Linked(c', chain')
    requires Agrees(c, chain, pc, ph) && Undisturbed(c, chain, c', chain', pc)
    ensures Agrees(c', chain', pc, ph)
  {
    if pc.PopSnapped? && c.head != pc.snap { SecondOf(chain, pc.snap); }
    if pc.FrontSnapped? && c.head != pc.snap { SecondOf(chain, pc.snap); }
  }

  /** A step of t keeps the simulation if it keeps the list and its meaning, brings t
      to the right place, and disturbs nobody else. */
  lemma StepKeeps<T>(c: State<T>, chain: seq<Addr>, a: Spec<T>, t: Tid, c': State<T>, chain': seq<Addr>, a': Spec<T>)
    requires Sim(c, chain, a) && OthersStay(c, c', t) && LocksAgree(c')
    requires Linked(c', chain') && OwnNodesApart(c', chain') && Holds(c', chain', a'.q) && Counted(c', a'.q)
    requires |a'.phase| == |a.phase| && forall u: Tid :: u < |a.phase| && u != t ==> a'.phase[u] == a.phase[u]
    requires Agrees(c', chain', c'.pcs[t], a'.phase[t])
    requires forall u: Tid :: u < |c.pcs| && u != t ==> Undisturbed(c, chain, c', chain', c.pcs[u])
    ensures Sim(c', chain', a')
  {
    forall u: Tid | u < |c'.pcs| ensures Agrees(c', chain', c'.pcs[u], a'.phase[u]) {
      if u != t { AgreesFrame(c, chain, c', chain', c.pcs[u], a.phase[u]); }
    }
  }

  /** The part of a push that the list's last node or sz_ shows. */
  function PushShape<T>(c: State<T>): Pc<T> {
    var pc := TailPc(c);
    if pc.PushStored? || pc.PushLinked? || pc.PushMoved? then pc else Idle
  }

  /** The nodes of the chain are as they were. */
  ghost predicate ChainKept<T>(c: State<T>, c': State<T>, chain: seq<Addr>) {
    && c'.head == c.head && c'.tail == c.tail
    && forall x :: x in chain ==> x in c.heap && x in c'.heap && c'.heap[x] == c.heap[x]
  }

  lemma ListFrame<T>(c: State<T>, c': State<T>, chain: seq<Addr>, q: seq<T>)
    requires Linked(c, chain) && Holds(c, chain, q) && ChainKept(c, c', chain)
    requires PushShape(c') == PushShape(c) && InFlight(c') == InFlight(c)
    ensures Linked(c', chain) && Holds(c', chain, q)
  {
  }

  /** Thread t gives up its own node, and every other own node is as it was. */
  lemma OwnFrame<T>(c: State<T>, c': State<T>, chain: seq<Addr>, t: Tid)
    requires OwnNodesApart(c, chain) && OthersStay(c, c', t) && OwnNode(c'.pcs[t]) == None
    requires forall x :: x in c.heap && OwnNode(c.pcs[t]) != Some(x) ==> x in c'.heap && c'.heap[x] == c.heap[x]
    ensures OwnNodesApart(c', chain)
  {
  }

  lemma SecondOf(chain: seq<Addr>, x: Addr)
    requires |chain| >= 1 && x in chain && x != chain[0]
    ensures |chain| >= 2
  {
  }

  /** Everyone but t keeps their place. */
  ghost predicate OthersStay<T>(c: State<T>, c': State<T>, t: Tid) {
    && t < |c.pcs| && |c'.pcs| == |c.pcs|
    && forall u: Tid :: u < |c.pcs| && u != t ==> c'.pcs[u] == c.pcs[u]
  }

  /** A mutex is kept, taken while free, or given back by its holder. */
  predicate LockMove(lock: Option<Tid>, lock': Option<Tid>, t: Tid, before: bool, after: bool) {
    || (lock' == lock && before == after)
    || (lock == None && lock' == Some(t) && after)
    || (before && lock' == None && !after)
  }

  predicate MovesLocks<T(==)>(c: State<T>, c': State<T>, t: Tid)
    requires t < |c.pcs|
  {
    && |c'.pcs| == |c.pcs| && c'.pcs == c.pcs[t := c'.pcs[t]]
    && LockMove(c.headLock, c'.headLock, t, HoldsHead(c.pcs[t]), HoldsHead(c'.pcs[t]))
    && LockMove(c.tailLock, c'.tailLock, t, HoldsTail(c.pcs[t]), HoldsTail(c'.pcs[t]))
  }

  lemma CallLocks<T(!new)>(c: State<T>, t: Tid, l: Label<T>, c': State<T>)
    requires t < |c.pcs| && CallNext(c, t, l, c')
    ensures MovesLocks(c, c', t)
  {
  }

  lemma PushLocks<T(!new)>(c: State<T>, t: Tid, c': State<T>)
    requires t < |c.pcs| && PushNext(c, t, c')
    ensures MovesLocks(c, c', t)
  {
  }

  lemma PopLocks<T>(c: State<T>, t: Tid, c': State<T>)
    requires t < |c.pcs| && PopNext(c, t, c')
    ensures MovesLocks(c, c', t)
  {
  }

  lemma FrontLocks<T>(c: State<T>, t: Tid, c': State<T>)
    requires t < |c.pcs| && FrontNext(c, t, c')
    ensures MovesLocks(c, c', t)
  {
  }

  lemma EmptyLocks<T>(c: State<T>, t: Tid, c': State<T>)
    requires t < |c.pcs| && EmptyNext(c, t, c')
    ensures MovesLocks(c, c', t)
  {
  }

  lemma SizeLocks<T>(c: State<T>, t: Tid, c': State<T>)
    requires t < |c.pcs| && SizeNext(c, t, c')
    ensures MovesLocks(c, c', t)
  {
  }

  lemma LocksKept<T>(c: State<T>, c': State<T>, t: Tid)
    requires LocksAgree(c) && t < |c.pcs| && MovesLocks(c, c', t)
    ensures LocksAgree(c') && OthersStay(c, c', t)
  {
  }

  /** A step that changes no memory, no queued value and nobody else's place. */
  ghost predicate Quiet<T>(c: State<T>, c': State<T>, t: Tid) {
    && OthersStay(c, c', t) && LocksAgree(c')
    && c'.heap == c.heap && c'.head == c.head && c'.tail == c.tail && c'.sz == c.sz
    && OwnNode(c'.pcs[t]) == OwnNode(c.pcs[t])
    && (IsNewNode(c'.pcs[t]) <==> IsNewNode(c.pcs[t]))
    && PushShape(c') == PushShape(c)
    && InFlight(c') == InFlight(c)
  }

  lemma QuietSim<T>(c: State<T>, chain: seq<Addr>, a: Spec<T>, t: Tid, c': State<T>, ph: Phase<T>)
    requires Sim(c, chain, a) && t < |c.pcs| && Quiet(c, c', t)
    requires Linked(c', chain) ==> Agrees(c', chain, c'.pcs[t], ph)
    ensures Sim(c', chain, a.(phase := a.phase[t := ph]))
  {
    assert Linked(c', chain);
    assert OwnNodesApart(c', chain);
    var a' := a.(phase := a.phase[t := ph]);
    StepKeeps(c, chain, a, t, c', chain, a');
  }

  /** The atomic object's side of a step of t: nothing, or t's call takes effect. */
  function Effect<T>(a: Spec<T>, t: Tid, effect: bool): Spec<T>
    requires effect ==> t < |a.phase| && a.phase[t].Called?
  {
    if effect then TakeEffect(a, t) else a
  }

  lemma CallQuiet<T(!new)>(c: State<T>, t: Tid, l: Label<T>, c': State<T>)
    requires LocksAgree(c) && t < |c.pcs| && CallNext(c, t, l, c')
    ensures Quiet(c, c', t)
  {
    CallLocks(c, t, l, c');
    LocksKept(c, c', t);
  }

  lemma PushQuiet<T(!new)>(c: State<T>, t: Tid, c': State<T>)
    requires LocksAgree(c) && t < |c.pcs| && PushNext(c, t, c')
    requires c.pcs[t].PushReady? || c.pcs[t].PushCounted?
    ensures Quiet(c, c', t)
  {
    PushLocks(c, t, c');
    LocksKept(c, c', t);
  }

  lemma PopQuiet<T(!new)>(c: State<T>, t: Tid, c': State<T>)
    requires LocksAgree(c) && t < |c.pcs| && PopNext(c, t, c')
    requires c.pcs[t].Entered? || c.pcs[t].PopHead? || c.pcs[t].PopCounted? || c.pcs[t].PopSnapped?
          || c.pcs[t].PopUnlinked?
    ensures Quiet(c, c', t)
  {
    PopLocks(c, t, c');
    LocksKept(c, c', t);
  }

  lemma FrontQuiet<T(!new)>(c: State<T>, t: Tid, c': State<T>)
    requires LocksAgree(c) && t < |c.pcs| && FrontNext(c, t, c')
    ensures Quiet(c, c', t)
  {
    FrontLocks(c, t, c');
    LocksKept(c, c', t);
  }

  lemma EmptyQuiet<T(!new)>(c: State<T>, t: Tid, c': State<T>)
    requires LocksAgree(c) && t < |c.pcs| && EmptyNext(c, t, c')
    ensures Quiet(c, c', t)
  {
    EmptyLocks(c, t, c');
    LocksKept(c, c', t);
  }

  lemma SizeQuiet<T(!new)>(c: State<T>, t: Tid, c': State<T>)
    requires LocksAgree(c) && t < |c.pcs| && SizeNext(c, t, c')
    ensures Quiet(c, c', t)
  {
    SizeLocks(c, t, c');
    LocksKept(c, c', t);
  }

  lemma CallSim<T(!new)>(c: State<T>, chain: seq<Addr>, a: Spec<T>, t: Tid, l: Label<T>, c': State<T>)
    returns (a': Spec<T>)
    requires Sim(c, chain, a) && t < |c.pcs| && CallNext(c, t, l, c')
    ensures Sim(c', chain, a') && SpecNext(a, l, a')
  {
    var ph: Phase<T> := if l.Call? then Called(l.op) else Resting;
    a' := a.(phase := a.phase[t := ph]);
    CallQuiet(c, t, l, c');
    QuietSim(c, chain, a, t, c', ph);
  }

  // Steps that move locks and positions only.

  lemma PushLockSim<T(!new)>(c: State<T>, chain: seq<Addr>, a: Spec<T>, t: Tid, c': State<T>)
    requires Sim(c, chain, a) && t < |c.pcs| && PushNext(c, t, c')
    requires c.pcs[t].PushReady? || c.pcs[t].PushCounted?
    ensures Sim(c', chain, a)
  {
    PushQuiet(c, t, c');
    QuietSim(c, chain, a, t, c', a.phase[t]);
    assert a.phase == a.phase[t := a.phase[t]];
  }

  lemma PopLockSim<T(!new)>(c: State<T>, chain: seq<Addr>, a: Spec<T>, t: Tid, c': State<T>)
    requires Sim(c, chain, a) && t < |c.pcs| && PopNext(c, t, c')
    requires c.pcs[t].Entered? || c.pcs[t].PopHead? || c.pcs[t].PopCounted? || c.pcs[t].PopSnapped?
          || c.pcs[t].PopUnlinked?
    ensures Sim(c', chain, a)
  {
    PopQuiet(c, t, c');
    if c.pcs[t].PopSnapped? && c.head != c.pcs[t].snap { SecondOf(chain, c.pcs[t].snap); }
    QuietSim(c, chain, a, t, c', a.phase[t]);
    assert a.phase == a.phase[t := a.phase[t]];
  }

  lemma FrontSim<T(!new)>(c: State<T>, chain: seq<Addr>, a: Spec<T>, t: Tid, c': State<T>) returns (a': Spec<T>)
    requires Sim(c, chain, a) && t < |c.pcs| && FrontNext(c, t, c')
    ensures Sim(c', chain, a') && SpecNext(a, Tau, a')
  {
    FrontQuiet(c, t, c');
    if c.pcs[t].FrontSnapped? && c.head != c.pcs[t].snap { SecondOf(chain, c.pcs[t].snap); }
    a' := Effect(a, t, c.pcs[t].FrontBoth?);
    QuietSim(c, chain, a, t, c', a'.phase[t]);
    assert a'.phase == a.phase[t := a'.phase[t]];
  }

  lemma EmptySim<T(!new)>(c: State<T>, chain: seq<Addr>, a: Spec<T>, t: Tid, c': State<T>) returns (a': Spec<T>)
    requires Sim(c, chain, a) && t < |c.pcs| && EmptyNext(c, t, c')
    ensures Sim(c', chain, a') && SpecNext(a, Tau, a')
  {
    EmptyQuiet(c, t, c');
    a' := Effect(a, t, c.pcs[t].EmptyBoth?);
    QuietSim(c, chain, a, t, c', a'.phase[t]);
    assert a'.phase == a.phase[t := a'.phase[t]];
  }

  lemma SizeSim<T(!new)>(c: State<T>, chain: seq<Addr>, a: Spec<T>, t: Tid, c': State<T>) returns (a': Spec<T>)
    requires Sim(c, chain, a) && t < |c.pcs| && SizeNext(c, t, c')
    ensures Sim(c', chain, a') && SpecNext(a, Tau, a')
  {
    SizeQuiet(c, t, c');
    a' := Effect(a, t, c.pcs[t].SizeLocked?);
    QuietSim(c, chain, a, t, c', a'.phase[t]);
    assert a'.phase == a.phase[t := a'.phase[t]];
  }

  // Steps of push that change memory.

  lemma PushAllocSim<T(!new)>(c: State<T>, chain: seq<Addr>, a: Spec<T>, t: Tid, c': State<T>)
    requires Sim(c, chain, a) && t < |c.pcs| && PushNext(c, t, c') && c.pcs[t].Entered?
    ensures Sim(c', chain, a)
  {
    PushLocks(c, t, c');
    LocksKept(c, c', t);
    assert Linked(c', chain);
    StepKeeps(c, chain, a, t, c', chain, a);
  }

  lemma PushWriteSim<T(!new)>(c: State<T>, chain: seq<Addr>, a: Spec<T>, t: Tid, c': State<T>)
    requires Sim(c, chain, a) && t < |c.pcs| && PushNext(c, t, c')
    requires c.pcs[t].PushLocked? || c.pcs[t].PushStored?
    ensures Sim(c', chain, a)
  {
    PushLocks(c, t, c');
    LocksKept(c, c', t);
    assert TailPc(c) == c.pcs[t] && TailPc(c') == c'.pcs[t];
    assert Linked(c', chain);
    StepKeeps(c, chain, a, t, c', chain, a);
  }

  lemma OwnNodeJoins<T>(c: State<T>, c': State<T>, chain: seq<Addr>, t: Tid, p: Addr)
    requires OwnNodesApart(c, chain) && OthersStay(c, c', t) && c'.heap == c.heap
    requires OwnNode(c.pcs[t]) == Some(p) && OwnNode(c'.pcs[t]) == None
    ensures OwnNodesApart(c', chain + [p])
  {
  }

  /** The list with its new last node, and the value in the node before it. */
  lemma ListGrows<T>(c: State<T>, c': State<T>, chain: seq<Addr>, q: seq<T>, v: T, p: Addr)
    requires Linked(c, chain) && Holds(c, chain, q) && TailPc(c) == PushLinked(v, p)
    requires p in c.heap && p !in chain && c.heap[p] == Node(Absent, None)
    requires c'.heap == c.heap && c'.head == c.head && c'.tail == p
    requires PushShape(c') == PushMoved && InFlight(c') == InFlight(c)
    ensures Linked(c', chain + [p]) && Holds(c', chain + [p], q + [v])
  {
    var n := |chain|;
    assert forall i :: 0 <= i < n ==> (chain + [p])[i] == chain[i];
    assert c.heap[chain[n - 1]] == Node(Full(v), Some(p));
  }

  /** push takes effect: tail_ moves to the new node. */
  lemma PushMoveSim<T(!new)>(c: State<T>, chain: seq<Addr>, a: Spec<T>, t: Tid, c': State<T>)
    requires Sim(c, chain, a) && t < |c.pcs| && PushNext(c, t, c') && c.pcs[t].PushLinked?
    ensures Sim(c', chain + [c.pcs[t].p], TakeEffect(a, t))
  {
    PushLocks(c, t, c');
    LocksKept(c, c', t);
    var a' := TakeEffect(a, t);
    var chain' := chain + [c.pcs[t].p];
    assert TailPc(c) == c.pcs[t] && TailPc(c') == c'.pcs[t];
    assert InFlight(c') == InFlight(c);
    OwnNodeJoins(c, c', chain, t, c.pcs[t].p);
    ListGrows(c, c', chain, a.q, c.pcs[t].v, c.pcs[t].p);
    StepKeeps(c, chain, a, t, c', chain', a');
  }

  lemma PushCountSim<T(!new)>(c: State<T>, chain: seq<Addr>, a: Spec<T>, t: Tid, c': State<T>)
    requires Sim(c, chain, a) && t < |c.pcs| && PushNext(c, t, c') && c.pcs[t].PushMoved?
    ensures Sim(c', chain, a)
  {
    PushLocks(c, t, c');
    LocksKept(c, c', t);
    assert TailPc(c) == c.pcs[t] && TailPc(c') == c'.pcs[t];
    assert Linked(c', chain);
    StepKeeps(c, chain, a, t, c', chain, a);
  }

  // Steps of tryPop that change memory.

  /** A pop takes effect: sz_ goes down while both mutexes are held. */
  lemma PopCountSim<T(!new)>(c: State<T>, chain: seq<Addr>, a: Spec<T>, t: Tid, c': State<T>)
    requires Sim(c, chain, a) && t < |c.pcs| && PopNext(c, t, c') && c.pcs[t].PopBoth?
    ensures Sim(c', chain, TakeEffect(a, t))
  {
    PopLocks(c, t, c');
    LocksKept(c, c', t);
    var a' := TakeEffect(a, t);
    assert HeadPc(c) == c.pcs[t] && HeadPc(c') == c'.pcs[t];
    assert TailPc(c) == c.pcs[t] && TailPc(c') == c'.pcs[t];
    assert Linked(c', chain);
    assert c.head == c.tail <==> |chain| == 1;
    assert Holds(c', chain, a'.q);
    StepKeeps(c, chain, a, t, c', chain, a');
  }

  lemma PopTakeSim<T(!new)>(c: State<T>, chain: seq<Addr>, a: Spec<T>, t: Tid, c': State<T>)
    requires Sim(c, chain, a) && t < |c.pcs| && PopNext(c, t, c') && c.pcs[t].PopTaking?
    ensures Sim(c', chain, a)
  {
    PopLocks(c, t, c');
    LocksKept(c, c', t);
    assert HeadPc(c) == c.pcs[t] && HeadPc(c') == c'.pcs[t];
    assert c.tail == chain[|chain| - 1] != chain[0];
    assert Linked(c', chain);
    StepKeeps(c, chain, a, t, c', chain, a);
  }

  lemma PopUnlinkSim<T(!new)>(c: State<T>, chain: seq<Addr>, a: Spec<T>, t: Tid, c': State<T>)
    requires Sim(c, chain, a) && t < |c.pcs| && PopNext(c, t, c') && c.pcs[t].PopTaken?
    ensures Sim(c', chain[1..], a)
  {
    PopLocks(c, t, c');
    LocksKept(c, c', t);
    var chain' := chain[1..];
    assert HeadPc(c) == c.pcs[t] && HeadPc(c') == c'.pcs[t];
    assert c.tail == chain[|chain| - 1] != chain[0];
    assert c.heap[chain[0]].next == Some(chain[1]);
    assert Linked(c', chain');
    assert Holds(c', chain', a.q);
    assert OwnNodesApart(c', chain');
    StepKeeps(c, chain, a, t, c', chain', a);
  }

  lemma PopFreeSim<T(!new)>(c: State<T>, chain: seq<Addr>, a: Spec<T>, t: Tid, c': State<T>)
    requires Sim(c, chain, a) && t < |c.pcs| && PopNext(c, t, c') && c.pcs[t].PopFreeing?
    ensures Sim(c', chain, a)
  {
    PopLocks(c, t, c');
    LocksKept(c, c', t);
    assert InFlight(c') == InFlight(c) && PushShape(c') == PushShape(c);
    OwnFrame(c, c', chain, t);
    ListFrame(c, c', chain, a.q);
    StepKeeps(c, chain, a, t, c', chain, a);
  }
}
