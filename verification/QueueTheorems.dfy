/**
 What every run of the two-lock queue keeps, whatever the interleaving:
 linearizability, the meaning of sz_, freedom from data races and from
 deadlock.
 */
module QueueTheorems {
  import opened Basics
  import opened QueueSpec
  import opened ConcurrentQueue
  import opened QueueSimulation
  import opened QueueAccesses

  /** Any step of any thread is matched by the atomic object. */
  lemma StepSim<T(!new)>(c: State<T>, chain: seq<Addr>, a: Spec<T>, l: Label<T>, c': State<T>)
    returns (chain': seq<Addr>, a': Spec<T>)
    requires Sim(c, chain, a) && Next(c, l, c')
    ensures Sim(c', chain', a') && SpecNext(a, l, a')
  {
    var t: Tid :| t < |c.pcs| && ThreadNext(c, t, l, c');
    chain', a' := chain, a;
    if
    case CallNext(c, t, l, c') => a' := CallSim(c, chain, a, t, l, c');
    case l == Tau && PushNext(c, t, c') => chain', a' := PushSim(c, chain, a, t, c');
    case l == Tau && PopNext(c, t, c') => chain', a' := PopSim(c, chain, a, t, c');
    case l == Tau && FrontNext(c, t, c') => a' := FrontSim(c, chain, a, t, c');
    case l == Tau && EmptyNext(c, t, c') => a' := EmptySim(c, chain, a, t, c');
    case l == Tau && SizeNext(c, t, c') => a' := SizeSim(c, chain, a, t, c');
  }

  lemma PushSim<T(!new)>(c: State<T>, chain: seq<Addr>, a: Spec<T>, t: Tid, c': State<T>)
    returns (chain': seq<Addr>, a': Spec<T>)
    requires Sim(c, chain, a) && t < |c.pcs| && PushNext(c, t, c')
    ensures Sim(c', chain', a') && SpecNext(a, Tau, a')
  {
    chain', a' := chain, a;
    match c.pcs[t] {
      case Entered(_) => PushAllocSim(c, chain, a, t, c');
      case PushLocked(_, _) => PushWriteSim(c, chain, a, t, c');
      case PushStored(_, _) => PushWriteSim(c, chain, a, t, c');
      case PushLinked(_, p) =>
        PushMoveSim(c, chain, a, t, c');
        chain', a' := chain + [p], TakeEffect(a, t);
      case PushMoved => PushCountSim(c, chain, a, t, c');
      case _ => PushLockSim(c, chain, a, t, c');
    }
  }

  lemma PopSim<T(!new)>(c: State<T>, chain: seq<Addr>, a: Spec<T>, t: Tid, c': State<T>)
    returns (chain': seq<Addr>, a': Spec<T>)
    requires Sim(c, chain, a) && t < |c.pcs| && PopNext(c, t, c')
    ensures Sim(c', chain', a') && SpecNext(a, Tau, a')
  {
    chain', a' := chain, a;
    match c.pcs[t] {
      case PopBoth =>
        PopCountSim(c, chain, a, t, c');
        a' := TakeEffect(a, t);
      case PopTaking => PopTakeSim(c, chain, a, t, c');
      case PopTaken(_) =>
        PopUnlinkSim(c, chain, a, t, c');
        chain' := chain[1..];
      case PopFreeing(_, _) => PopFreeSim(c, chain, a, t, c');
      case _ => PopLockSim(c, chain, a, t, c');
    }
  }

  /** State by state, the code stands where the atomic object stands. */
  ghost predicate Matched<T>(states: seq<State<T>>, chains: seq<seq<Addr>>, specs: seq<Spec<T>>) {
    |chains| == |specs| == |states| && forall i :: 0 <= i < |states| ==> Sim(states[i], chains[i], specs[i])
  }

  lemma MatchedAt<T>(states: seq<State<T>>, chains: seq<seq<Addr>>, specs: seq<Spec<T>>, k: nat)
    requires Matched(states, chains, specs) && k < |states|
    ensures Sim(states[k], chains[k], specs[k])
  {
  }

  lemma MatchedOn<T>(states: seq<State<T>>, chains: seq<seq<Addr>>, specs: seq<Spec<T>>,
                     c: State<T>, chain: seq<Addr>, a: Spec<T>)
    requires Matched(states, chains, specs) && Sim(c, chain, a)
    ensures Matched(states + [c], chains + [chain], specs + [a])
  {
    var n := |states|;
    forall i | 0 <= i < n + 1 ensures Sim((states + [c])[i], (chains + [chain])[i], (specs + [a])[i]) {
      if i < n {
        assert (states + [c])[i] == states[i] && (chains + [chain])[i] == chains[i] && (specs + [a])[i] == specs[i];
      } else {
        assert (states + [c])[i] == c && (chains + [chain])[i] == chain && (specs + [a])[i] == a;
      }
    }
  }

  /** LINEARIZABILITY. Every run of the two-lock queue, by any number of
      threads, shows the same calls and returns as a run of the atomic FIFO. */
  lemma {:induction false} Linearizable<T(!new)>(states: seq<State<T>>, labels: seq<Label<T>>, threads: nat)
    returns (specs: seq<Spec<T>>, chains: seq<seq<Addr>>)
    requires IsRun(states, labels, threads)
    ensures IsSpecRun(specs, labels, threads)
    ensures Matched(states, chains, specs)
    decreases |labels|
  {
    if labels == [] {
      specs, chains := [SpecInit(threads)], [[states[0].head]];
      InitSim(states[0], threads);
    } else {
      var n := |labels| - 1;
      RunPrefix(states, labels, threads);
      var specs0, chains0 := Linearizable(states[..n + 1], labels[..n], threads);
      specs, chains := LinearizeStep(states, labels, threads, specs0, chains0);
    }
  }

  lemma LinearizeStep<T(!new)>(states: seq<State<T>>, labels: seq<Label<T>>, threads: nat,
                               specs0: seq<Spec<T>>, chains0: seq<seq<Addr>>)
    returns (specs: seq<Spec<T>>, chains: seq<seq<Addr>>)
    requires |labels| > 0 && |states| == |labels| + 1
    requires Next(states[|labels| - 1], labels[|labels| - 1], states[|labels|])
    requires IsSpecRun(specs0, labels[..|labels| - 1], threads)
    requires Matched(states[..|labels|], chains0, specs0)
    ensures IsSpecRun(specs, labels, threads)
    ensures Matched(states, chains, specs)
  {
    var n := |labels| - 1;
    var before := states[..n + 1];
    assert before[n] == states[n];
    MatchedAt(before, chains0, specs0, n);
    var chain', a' := StepSim(states[n], chains0[n], specs0[n], labels[n], states[n + 1]);
    specs, chains := specs0 + [a'], chains0 + [chain'];
    SpecRunExtends(specs0, labels[..n], threads, labels[n], a');
    MatchedOn(before, chains0, specs0, states[n + 1], chain', a');
    assert labels == labels[..n] + [labels[n]];
    assert states == before + [states[n + 1]];
  }

  lemma InitSim<T>(c: State<T>, threads: nat)
    requires Init(c, threads)
    ensures Sim(c, [c.head], SpecInit(threads))
  {
  }

  lemma RunPrefix<T(!new)>(states: seq<State<T>>, labels: seq<Label<T>>, threads: nat)
    requires IsRun(states, labels, threads) && |labels| > 0
    ensures IsRun(states[..|labels|], labels[..|labels| - 1], threads)
    ensures Next(states[|labels| - 1], labels[|labels| - 1], states[|labels|])
  {
  }

  lemma SpecRunExtends<T(!new)>(specs: seq<Spec<T>>, labels: seq<Label<T>>, threads: nat, l: Label<T>, a': Spec<T>)
    requires IsSpecRun(specs, labels, threads) && SpecNext(specs[|labels|], l, a')
    ensures IsSpecRun(specs + [a'], labels + [l], threads)
  {
  }

  /** sz_ counts the nodes after the head, less one exactly while a successful
      pop stands between its decrement and its head advance, and less one while
      a push stands between moving tail_ and counting. It is never negative. */
  lemma SizeLaw<T(!new)>(states: seq<State<T>>, labels: seq<Label<T>>, threads: nat, k: nat)
    returns (chain: seq<Addr>)
    requires IsRun(states, labels, threads) && k < |states|
    ensures Linked(states[k], chain)
    ensures states[k].sz == |chain| - 1 - InFlight(states[k]) - (if TailPc(states[k]).PushMoved? then 1 else 0)
    ensures states[k].sz >= 0
    ensures (forall t: Tid :: t < |states[k].pcs| ==> states[k].pcs[t].Idle?) ==> states[k].sz == |chain| - 1
  {
    var specs, chains := Linearizable(states, labels, threads);
    chain := chains[k];
    assert Sim(states[k], chain, specs[k]);
  }

  // --------------------------------------------------------------- data races

  /** Who may be at a place: the head mutex guards head_ and the node at the
      head, the tail mutex guards tail_, sz_ and the dummy node. */
  predicate Entitled<T>(c: State<T>, chain: seq<Addr>, pc: Pc<T>, loc: Loc) {
    match loc
    case HeadPtr => HoldsHead(pc)
    case TailPtr => HoldsTail(pc)
    case Counter => HoldsTail(pc)
    case _ =>
      || (HoldsHead(pc) && loc.p == c.head && |chain| >= 2)
      || (HoldsTail(pc) && loc.p == c.tail)
      || OwnNode(pc) == Some(loc.p)
  }

  lemma AccessEntitled<T>(c: State<T>, chain: seq<Addr>, a: Spec<T>, t: Tid, loc: Loc)
    requires Sim(c, chain, a) && t < |c.pcs| && loc in Reads(c, c.pcs[t]) + Writes(c, c.pcs[t])
    ensures Entitled(c, chain, c.pcs[t], loc)
  {
    assert Agrees(c, chain, c.pcs[t], a.phase[t]);
  }

  /** RACE FREEDOM. Two threads are never about to touch the same place with
      one of them writing it: in particular a popper's nodes lie strictly before
      the node pushers write. */
  lemma DataRaceFree<T(!new)>(states: seq<State<T>>, labels: seq<Label<T>>, threads: nat, k: nat, t: Tid, u: Tid)
    requires IsRun(states, labels, threads) && k < |states|
    requires t < |states[k].pcs| && u < |states[k].pcs| && t != u
    ensures Writes(states[k], states[k].pcs[t]) !!
            Reads(states[k], states[k].pcs[u]) + Writes(states[k], states[k].pcs[u])
  {
    var specs, chains := Linearizable(states, labels, threads);
    var c, chain, a := states[k], chains[k], specs[k];
    assert Sim(c, chain, a);
    forall loc | loc in Writes(c, c.pcs[t]) && loc in Reads(c, c.pcs[u]) + Writes(c, c.pcs[u])
      ensures false
    {
      AccessEntitled(c, chain, a, t, loc);
      AccessEntitled(c, chain, a, u, loc);
      NotBothEntitled(c, chain, t, u, loc);
    }
  }

  lemma NotBothEntitled<T>(c: State<T>, chain: seq<Addr>, t: Tid, u: Tid, loc: Loc)
    requires LocksAgree(c) && Linked(c, chain) && OwnNodesApart(c, chain)
    requires t < |c.pcs| && u < |c.pcs| && t != u
    ensures !(Entitled(c, chain, c.pcs[t], loc) && Entitled(c, chain, c.pcs[u], loc))
  {
    assert |chain| >= 2 ==> c.head == chain[0] != chain[|chain| - 1] == c.tail;
    assert c.head in chain && c.tail in chain;
  }

  // ----------------------------------------------------------------- deadlock

  lemma UnusedAddress<V>(heap: map<Addr, V>) returns (p: Addr)
    ensures p !in heap
  {
    p := LeastAbove(heap.Keys);
  }

  predicate Waits<T>(c: State<T>, pc: Pc<T>) {
    || (c.headLock.Some? && pc.Entered? && (pc.op.TryPop? || pc.op.Front? || pc.op.Empty?))
    || (c.tailLock.Some? && (pc.PushReady? || pc.PopHead? || pc.FrontHead? || pc.EmptyHead?
                             || (pc.Entered? && pc.op.Size?)))
  }

  /** A thread inside a call that is not waiting for a mutex can go on: it never
      meets a dangling pointer, an empty cell or a missing successor. */
  lemma NeverStuck<T(!new)>(c: State<T>, chain: seq<Addr>, a: Spec<T>, t: Tid) returns (l: Label<T>, c': State<T>)
    requires Sim(c, chain, a) && t < |c.pcs| && !c.pcs[t].Idle? && !Waits(c, c.pcs[t])
    ensures ThreadNext(c, t, l, c')
  {
    l := if c.pcs[t].Returning? then Return(t, c.pcs[t].res) else Tau;
    assert Agrees(c, chain, c.pcs[t], a.phase[t]);
    match c.pcs[t] {
      case Returning(_) => c' := Go(c, t, Idle);
      case Entered(op) =>
        match op {
          case Push(v) =>
            var p := UnusedAddress(c.heap);
            c' := Go(c.(heap := c.heap[p := Node(Absent, None)]), t, PushReady(v, p));
            assert PushNext(c, t, c');
          case TryPop => c' := Go(c.(headLock := Some(t)), t, PopHead);
          case Front => c' := Go(c.(headLock := Some(t)), t, FrontHead);
          case Empty => c' := Go(c.(headLock := Some(t)), t, EmptyHead);
          case Size => c' := Go(c.(tailLock := Some(t)), t, SizeLocked);
        }
      case PushReady(v, p) => c' := Go(c.(tailLock := Some(t)), t, PushLocked(v, p));
      case PushLocked(v, p) =>
        c' := Go(c.(heap := c.heap[c.tail := c.heap[c.tail].(data := Full(v))]), t, PushStored(v, p));
      case PushStored(v, p) =>
        c' := Go(c.(heap := c.heap[c.tail := c.heap[c.tail].(next := Some(p))]), t, PushLinked(v, p));
      case PushLinked(v, p) => c' := Go(c.(tail := p), t, PushMoved);
      case PushMoved => c' := Go(c.(sz := c.sz + 1), t, PushCounted);
      case PushCounted => c' := Go(c.(tailLock := None), t, Returning(Unit));
      case PopHead => c' := Go(c.(tailLock := Some(t)), t, PopBoth);
      case PopBoth => c' := Go(c.(sz := Max(0, c.sz - 1)), t, PopCounted);
      case PopCounted => c' := Go(c.(tailLock := None), t, PopSnapped(c.tail));
      case PopSnapped(snap) =>
        c' := if c.head == snap then Go(c.(headLock := None), t, Returning(NoElement)) else Go(c, t, PopTaking);
      case PopTaking =>
        c' := Go(c.(heap := c.heap[c.head := c.heap[c.head].(data := MovedFrom)]), t, PopTaken(c.heap[c.head].data.v));
      case PopTaken(v) =>
        assert c.heap[chain[0]].next == Some(chain[1]);
        c' := Go(c.(head := c.heap[c.head].next.value, heap := c.heap[c.head := c.heap[c.head].(next := None)]), t,
                 PopUnlinked(v, c.head));
      case PopUnlinked(v, gone) => c' := Go(c.(headLock := None), t, PopFreeing(v, gone));
      case PopFreeing(v, gone) => c' := Go(c.(heap := c.heap - {gone}), t, Returning(Value(v)));
      case FrontHead => c' := Go(c.(tailLock := Some(t)), t, FrontBoth);
      case FrontBoth => c' := Go(c.(tailLock := None), t, FrontSnapped(c.tail));
      case FrontSnapped(snap) =>
        c' := if c.head == snap then Go(c.(headLock := None), t, Returning(NoElement)) else Go(c, t, FrontReading);
      case FrontReading => c' := Go(c.(headLock := None), t, Returning(Value(c.heap[c.head].data.v)));
      case EmptyHead => c' := Go(c.(tailLock := Some(t)), t, EmptyBoth);
      case EmptyBoth => c' := Go(c.(tailLock := None), t, EmptySnapped(c.tail));
      case EmptySnapped(snap) => c' := Go(c.(headLock := None), t, Returning(Flag(c.head == snap)));
      case SizeLocked => c' := Go(c.(tailLock := None), t, Returning(Count(c.sz)));
    }
  }

  /** DEADLOCK FREEDOM. While some thread is inside a call, some thread inside a
      call can take a step. */
  lemma DeadlockFree<T(!new)>(states: seq<State<T>>, labels: seq<Label<T>>, threads: nat, k: nat, t: Tid)
    returns (u: Tid, l: Label<T>, c': State<T>)
    requires IsRun(states, labels, threads) && k < |states|
    requires t < |states[k].pcs| && !states[k].pcs[t].Idle?
    ensures u < |states[k].pcs| && !states[k].pcs[u].Idle? && ThreadNext(states[k], u, l, c')
  {
    var specs, chains := Linearizable(states, labels, threads);
    var c := states[k];
    assert Sim(c, chains[k], specs[k]);
    u := if c.tailLock.Some? then c.tailLock.value
         else if c.headLock.Some? then c.headLock.value else t;
    l, c' := NeverStuck(c, chains[k], specs[k], u);
  }
}
