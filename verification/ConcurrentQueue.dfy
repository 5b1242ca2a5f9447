/**
 The two-lock queue of core/common/queue.h as a transition system. Any number
 of threads run push, tryPop, front, empty and size at once; every lock, every
 unlock and every shared read or write is a step of its own, nodes are
 allocated at any address that is not in use and freed addresses are used
 again.
 */
module ConcurrentQueue {
  import opened Basics
  import opened QueueSpec

  type Addr = nat

  /** What a node's shared_ptr holds; MovedFrom after tryPop has moved the value out. */
  datatype Cell<+T> = Absent | Full(v: T) | MovedFrom

  datatype Node<+T> = Node(data: Cell<T>, next: Option<Addr>)

  /** The point a thread has reached; each name says what it has just done. */
  datatype Pc<+T> =
    | Idle
    | Entered(op: Op<T>)
      // push
    | PushReady(v: T, p: Addr)
    | PushLocked(v: T, p: Addr)
    | PushStored(v: T, p: Addr)
    | PushLinked(v: T, p: Addr)
    | PushMoved
    | PushCounted
      // tryPop
    | PopHead
    | PopBoth
    | PopCounted
    | PopSnapped(snap: Addr)
    | PopTaking
    | PopTaken(v: T)
    | PopUnlinked(v: T, gone: Addr)
    | PopFreeing(v: T, gone: Addr)
      // front
    | FrontHead
    | FrontBoth
    | FrontSnapped(snap: Addr)
    | FrontReading
      // empty
    | EmptyHead
    | EmptyBoth
    | EmptySnapped(snap: Addr)
      // size
    | SizeLocked
    | Returning(res: Result<T>)

  datatype State<+T> = State(
    heap: map<Addr, Node<T>>, head: Addr, tail: Addr, sz: int,
    headLock: Option<Tid>, tailLock: Option<Tid>, pcs: seq<Pc<T>>)

  /** The constructor: one dummy node that is both head and tail. */
  ghost predicate Init<T>(c: State<T>, threads: nat) {
    && c.heap == map[c.head := Node(Absent, None)]
    && c.tail == c.head && c.sz == 0
    && c.headLock == None && c.tailLock == None
    && c.pcs == seq(threads, i => Idle)
  }

  function Go<T>(c: State<T>, t: Tid, pc: Pc<T>): State<T>
    requires t < |c.pcs|
  {
    c.(pcs := c.pcs[t := pc])
  }

  /** A step of thread t that only moves t on. */
  ghost predicate CallNext<T(!new)>(c: State<T>, t: Tid, l: Label<T>, c': State<T>)
    requires t < |c.pcs|
  {
    match c.pcs[t]
    case Idle => l.Call? && l.t == t && c' == Go(c, t, Entered(l.op))
    case Returning(res) => l == Return(t, res) && c' == Go(c, t, Idle)
    case _ => false
  }

  ghost predicate PushNext<T(!new)>(c: State<T>, t: Tid, c': State<T>)
    requires t < |c.pcs|
  {
    match c.pcs[t]
    case Entered(op) =>
      && op.Push?
      && exists p: Addr :: p !in c.heap
           && c' == Go(c.(heap := c.heap[p := Node(Absent, None)]), t, PushReady(op.v, p))
    case PushReady(v, p) =>
      c.tailLock == None && c' == Go(c.(tailLock := Some(t)), t, PushLocked(v, p))
    case PushLocked(v, p) =>
      && c.tail in c.heap
      && c' == Go(c.(heap := c.heap[c.tail := c.heap[c.tail].(data := Full(v))]), t, PushStored(v, p))
    case PushStored(v, p) =>
      && c.tail in c.heap
      && c' == Go(c.(heap := c.heap[c.tail := c.heap[c.tail].(next := Some(p))]), t, PushLinked(v, p))
    case PushLinked(v, p) => c' == Go(c.(tail := p), t, PushMoved)
    case PushMoved => c' == Go(c.(sz := c.sz + 1), t, PushCounted)
    case PushCounted => c' == Go(c.(tailLock := None), t, Returning(Unit))
    case _ => false
  }

  ghost predicate PopNext<T>(c: State<T>, t: Tid, c': State<T>)
    requires t < |c.pcs|
  {
    match c.pcs[t]
    case Entered(op) =>
      op.TryPop? && c.headLock == None && c' == Go(c.(headLock := Some(t)), t, PopHead)
    case PopHead =>
      c.tailLock == None && c' == Go(c.(tailLock := Some(t)), t, PopBoth)
    case PopBoth => c' == Go(c.(sz := Max(0, c.sz - 1)), t, PopCounted)
    case PopCounted => c' == Go(c.(tailLock := None), t, PopSnapped(c.tail))
    case PopSnapped(snap) =>
      c' == if c.head == snap then Go(c.(headLock := None), t, Returning(NoElement))
            else Go(c, t, PopTaking)
    case PopTaking =>
      && c.head in c.heap && c.heap[c.head].data.Full?
      && c' == Go(c.(heap := c.heap[c.head := c.heap[c.head].(data := MovedFrom)]), t,
                  PopTaken(c.heap[c.head].data.v))
    case PopTaken(v) =>
      && c.head in c.heap && c.heap[c.head].next.Some?
      && c' == Go(c.(head := c.heap[c.head].next.value,
                     heap := c.heap[c.head := c.heap[c.head].(next := None)]), t,
                  PopUnlinked(v, c.head))
    case PopUnlinked(v, gone) => c' == Go(c.(headLock := None), t, PopFreeing(v, gone))
    case PopFreeing(v, gone) =>
      gone in c.heap && c' == Go(c.(heap := c.heap - {gone}), t, Returning(Value(v)))
    case _ => false
  }

  ghost predicate FrontNext<T>(c: State<T>, t: Tid, c': State<T>)
    requires t < |c.pcs|
  {
    match c.pcs[t]
    case Entered(op) =>
      op.Front? && c.headLock == None && c' == Go(c.(headLock := Some(t)), t, FrontHead)
    case FrontHead =>
      c.tailLock == None && c' == Go(c.(tailLock := Some(t)), t, FrontBoth)
    case FrontBoth => c' == Go(c.(tailLock := None), t, FrontSnapped(c.tail))
    case FrontSnapped(snap) =>
      c' == if c.head == snap then Go(c.(headLock := None), t, Returning(NoElement))
            else Go(c, t, FrontReading)
    case FrontReading =>
      && c.head in c.heap && c.heap[c.head].data.Full?
      && c' == Go(c.(headLock := None), t, Returning(Value(c.heap[c.head].data.v)))
    case _ => false
  }

  ghost predicate EmptyNext<T>(c: State<T>, t: Tid, c': State<T>)
    requires t < |c.pcs|
  {
    match c.pcs[t]
    case Entered(op) =>
      op.Empty? && c.headLock == None && c' == Go(c.(headLock := Some(t)), t, EmptyHead)
    case EmptyHead =>
      c.tailLock == None && c' == Go(c.(tailLock := Some(t)), t, EmptyBoth)
    case EmptyBoth => c' == Go(c.(tailLock := None), t, EmptySnapped(c.tail))
    case EmptySnapped(snap) =>
      c' == Go(c.(headLock := None), t, Returning(Flag(c.head == snap)))
    case _ => false
  }

  ghost predicate SizeNext<T>(c: State<T>, t: Tid, c': State<T>)
    requires t < |c.pcs|
  {
    match c.pcs[t]
    case Entered(op) =>
      op.Size? && c.tailLock == None && c' == Go(c.(tailLock := Some(t)), t, SizeLocked)
    case SizeLocked => c' == Go(c.(tailLock := None), t, Returning(Count(c.sz)))
    case _ => false
  }

  /** One step of thread t. A thread that needs a mutex somebody holds has none. */
  ghost predicate ThreadNext<T(!new)>(c: State<T>, t: Tid, l: Label<T>, c': State<T>)
    requires t < |c.pcs|
  {
    || CallNext(c, t, l, c')
    || (l == Tau && (PushNext(c, t, c') || PopNext(c, t, c') || FrontNext(c, t, c')
                     || EmptyNext(c, t, c') || SizeNext(c, t, c')))
  }

  ghost predicate Next<T(!new)>(c: State<T>, l: Label<T>, c': State<T>) {
    exists t: Tid :: t < |c.pcs| && ThreadNext(c, t, l, c')
  }

  ghost predicate IsRun<T(!new)>(states: seq<State<T>>, labels: seq<Label<T>>, threads: nat) {
    && |states| == |labels| + 1
    && Init(states[0], threads)
    && forall i {:trigger labels[i]} :: 0 <= i < |labels| ==> Next(states[i], labels[i], states[i + 1])
  }

  // ---------------------------------------------------------------- invariant

  predicate HoldsHead<T>(pc: Pc<T>) {
    || pc.PopHead? || pc.PopBoth? || pc.PopCounted? || pc.PopSnapped? || pc.PopTaking?
    || pc.PopTaken? || pc.PopUnlinked?
    || pc.FrontHead? || pc.FrontBoth? || pc.FrontSnapped? || pc.FrontReading?
    || pc.EmptyHead? || pc.EmptyBoth? || pc.EmptySnapped?
  }

  predicate HoldsTail<T>(pc: Pc<T>) {
    || pc.PushLocked? || pc.PushStored? || pc.PushLinked? || pc.PushMoved? || pc.PushCounted?
    || pc.PopBoth? || pc.PopCounted? || pc.FrontBoth? || pc.EmptyBoth? || pc.SizeLocked?
  }

  /** Each mutex is held by exactly the thread whose position says so. */
  ghost predicate LocksAgree<T>(c: State<T>) {
    && (c.headLock.Some? ==> c.headLock.value < |c.pcs|)
    && (c.tailLock.Some? ==> c.tailLock.value < |c.pcs|)
    && (forall t: Tid :: t < |c.pcs| ==> (HoldsHead(c.pcs[t]) <==> c.headLock == Some(t)))
    && (forall t: Tid :: t < |c.pcs| ==> (HoldsTail(c.pcs[t]) <==> c.tailLock == Some(t)))
  }

  /** The node only this thread can reach: not yet linked, or already unlinked. */
  function OwnNode<T>(pc: Pc<T>): Option<Addr> {
    match pc
    case PushReady(_, p) => Some(p)
    case PushLocked(_, p) => Some(p)
    case PushStored(_, p) => Some(p)
    case PushLinked(_, p) => Some(p)
    case PopUnlinked(_, gone) => Some(gone)
    case PopFreeing(_, gone) => Some(gone)
    case _ => None
  }

  predicate IsNewNode<T>(pc: Pc<T>) {
    pc.PushReady? || pc.PushLocked? || pc.PushStored? || pc.PushLinked?
  }

  ghost predicate OwnNodesApart<T>(c: State<T>, chain: seq<Addr>) {
    && (forall t: Tid :: t < |c.pcs| && OwnNode(c.pcs[t]).Some? ==>
          && OwnNode(c.pcs[t]).value in c.heap
          && OwnNode(c.pcs[t]).value !in chain
          && (IsNewNode(c.pcs[t]) ==> c.heap[OwnNode(c.pcs[t]).value] == Node(Absent, None)))
    && (forall t: Tid, u: Tid :: t < u < |c.pcs| && OwnNode(c.pcs[t]).Some? && OwnNode(c.pcs[u]).Some? ==>
          OwnNode(c.pcs[t]) != OwnNode(c.pcs[u]))
  }

  /** The pusher's place, if the tail mutex is a pusher's. */
  function TailPc<T>(c: State<T>): Pc<T> {
    if c.tailLock.Some? && c.tailLock.value < |c.pcs| then c.pcs[c.tailLock.value] else Idle
  }

  function HeadPc<T>(c: State<T>): Pc<T> {
    if c.headLock.Some? && c.headLock.value < |c.pcs| then c.pcs[c.headLock.value] else Idle
  }

  /** chain is the linked list from head_ to tail_. */
  ghost predicate Linked<T>(c: State<T>, chain: seq<Addr>) {
    && |chain| >= 1
    && chain[0] == c.head && chain[|chain| - 1] == c.tail
    && (forall i :: 0 <= i < |chain| ==> chain[i] in c.heap)
    && (forall i, j :: 0 <= i < j < |chain| ==> chain[i] != chain[j])
    && (forall i :: 0 <= i < |chain| - 1 ==> c.heap[chain[i]].next == Some(chain[i + 1]))
    && c.heap[c.tail].next == (if TailPc(c).PushLinked? then Some(TailPc(c).p) else None)
    && c.heap[c.tail].data == (if TailPc(c).PushStored? || TailPc(c).PushLinked? then Full(TailPc(c).v) else Absent)
  }

  /** A pop has taken effect but the node it popped is still at the head. */
  predicate PopInFlight<T>(c: State<T>) {
    match HeadPc(c)
    case PopCounted => c.head != c.tail
    case PopSnapped(snap) => c.head != snap
    case PopTaking => true
    case PopTaken(_) => true
    case _ => false
  }

  function InFlight<T>(c: State<T>): nat { if PopInFlight(c) then 1 else 0 }

  /** The queued values, node by node, after the one being popped. */
  ghost predicate Holds<T>(c: State<T>, chain: seq<Addr>, q: seq<T>)
    requires Linked(c, chain)
  {
    && |chain| == |q| + 1 + InFlight(c)
    && forall i :: 0 <= i < |q| ==> c.heap[chain[i + InFlight(c)]].data == Full(q[i])
  }

  /** sz_ lags the list only while a pusher is between moving tail_ and counting. */
  predicate Counted<T>(c: State<T>, q: seq<T>) {
    c.sz == |q| - (if TailPc(c).PushMoved? then 1 else 0) && c.sz >= 0
  }

  ghost predicate HeadAnswer<T>(c: State<T>, chain: seq<Addr>, snap: Addr, res: Result<T>)
    requires Linked(c, chain)
  {
    && snap in chain
    && (if c.head == snap then res == NoElement
        else res.Value? && c.heap[c.head].data == Full(res.v))
  }

  /** Thread t of the code and thread t of the atomic object are at the same place. */
  ghost predicate Agrees<T>(c: State<T>, chain: seq<Addr>, pc: Pc<T>, ph: Phase<T>)
    requires Linked(c, chain)
  {
    match pc
    case Idle => ph == Resting
    case Entered(op) => ph == Called(op)
    case PushReady(v, p) => ph == Called(Push(v))
    case PushLocked(v, p) => ph == Called(Push(v))
    case PushStored(v, p) => ph == Called(Push(v))
    case PushLinked(v, p) => ph == Called(Push(v))
    case PushMoved => ph == Done(Unit)
    case PushCounted => ph == Done(Unit)
    case PopHead => ph == Called(TryPop)
    case PopBoth => ph == Called(TryPop)
    case PopCounted => ph.Done? && HeadAnswer(c, chain, c.tail, ph.res)
    case PopSnapped(snap) => ph.Done? && HeadAnswer(c, chain, snap, ph.res)
    case PopTaking => ph.Done? && ph.res.Value? && |chain| >= 2 && c.heap[c.head].data == Full(ph.res.v)
    case PopTaken(v) => ph == Done(Value(v)) && |chain| >= 2
    case PopUnlinked(v, gone) => ph == Done(Value(v))
    case PopFreeing(v, gone) => ph == Done(Value(v))
    case FrontHead => ph == Called(Front)
    case FrontBoth => ph == Called(Front)
    case FrontSnapped(snap) => ph.Done? && HeadAnswer(c, chain, snap, ph.res)
    case FrontReading => ph.Done? && ph.res.Value? && |chain| >= 2 && c.heap[c.head].data == Full(ph.res.v)
    case EmptyHead => ph == Called(Empty)
    case EmptyBoth => ph == Called(Empty)
    case EmptySnapped(snap) => ph == Done(Flag(c.head == snap))
    case SizeLocked => ph == Called(Size)
    case Returning(res) => ph == Done(res)
  }

  /** The simulation relation between the code's state and the atomic object's. */
  ghost predicate Sim<T>(c: State<T>, chain: seq<Addr>, a: Spec<T>) {
    && LocksAgree(c)
    && Linked(c, chain)
    && OwnNodesApart(c, chain)
    && Holds(c, chain, a.q)
    && Counted(c, a.q)
    && |a.phase| == |c.pcs|
    && forall t: Tid :: t < |c.pcs| ==> Agrees(c, chain, c.pcs[t], a.phase[t])
  }
}
