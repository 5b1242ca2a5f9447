/**
 The shared places each step of the two-lock queue touches, and that the lists
 of them leave nothing out.
 */
module QueueAccesses {
  import opened Basics
  import opened QueueSpec
  import opened ConcurrentQueue

  datatype Loc = HeadPtr | TailPtr | Counter | DataOf(p: Addr) | NextOf(p: Addr)

  /** The shared places thread t's next step writes; taking and giving back a mutex are not accesses. */
  function Writes<T>(c: State<T>, pc: Pc<T>): set<Loc> {
    match pc
    case PushLocked(_, _) => {DataOf(c.tail)}
    case PushStored(_, _) => {NextOf(c.tail)}
    case PushLinked(_, _) => {TailPtr}
    case PushMoved => {Counter}
    case PopBoth => {Counter}
    case PopTaking => {DataOf(c.head)}
    case PopTaken(_) => {HeadPtr, NextOf(c.head)}
    case PopFreeing(_, gone) => {DataOf(gone), NextOf(gone)}
    case _ => {}
  }

  function Reads<T>(c: State<T>, pc: Pc<T>): set<Loc> {
    match pc
    case PushLocked(_, _) => {TailPtr}
    case PushStored(_, _) => {TailPtr}
    case PushMoved => {Counter}
    case PopBoth => {Counter}
    case PopCounted => {TailPtr}
    case PopSnapped(_) => {HeadPtr}
    case PopTaking => {HeadPtr, DataOf(c.head)}
    case PopTaken(_) => {HeadPtr, NextOf(c.head)}
    case FrontBoth => {TailPtr}
    case FrontSnapped(_) => {HeadPtr}
    case FrontReading => {HeadPtr, DataOf(c.head)}
    case EmptyBoth => {TailPtr}
    case EmptySnapped(_) => {HeadPtr}
    case SizeLocked => {Counter}
    case _ => {}
  }

  /** Two states hold the same at a place. */
  predicate SameAt<T(==)>(c: State<T>, d: State<T>, loc: Loc) {
    match loc
    case HeadPtr => c.head == d.head
    case TailPtr => c.tail == d.tail
    case Counter => c.sz == d.sz
    case DataOf(p) => (p in c.heap <==> p in d.heap) && (p in c.heap ==> c.heap[p].data == d.heap[p].data)
    case NextOf(p) => (p in c.heap <==> p in d.heap) && (p in c.heap ==> c.heap[p].next == d.heap[p].next)
  }

  ghost predicate SameAtAll<T>(c: State<T>, d: State<T>, locs: set<Loc>) {
    forall loc :: loc in locs ==> SameAt(c, d, loc)
  }

  predicate Exists<T>(c: State<T>, loc: Loc) {
    (loc.DataOf? || loc.NextOf?) ==> loc.p in c.heap
  }

  /** Writes leaves nothing out: a step changes no existing place but those. */
  lemma StepWritesOnly<T(!new)>(c: State<T>, t: Tid, l: Label<T>, c': State<T>, loc: Loc)
    requires t < |c.pcs| && ThreadNext(c, t, l, c')
    requires Exists(c, loc) && loc !in Writes(c, c.pcs[t])
    ensures SameAt(c, c', loc)
  {
  }

  /** Thread t is at the same position, the mutexes stand the same and the same
      addresses are in use; what the places hold may differ. */
  predicate SameView<T(==)>(c: State<T>, d: State<T>, t: Tid) {
    && t < |c.pcs| && t < |d.pcs| && d.pcs[t] == c.pcs[t]
    && d.headLock == c.headLock && d.tailLock == c.tailLock
    && d.heap.Keys == c.heap.Keys
  }

  /** The step from c to c' and a step to d' bring t to the same position, move the
      mutexes alike, and leave the same at what they write. */
  ghost predicate SameOutcome<T>(c: State<T>, c': State<T>, d': State<T>, t: Tid) {
    && t < |c.pcs| && t < |c'.pcs| && t < |d'.pcs| && d'.pcs[t] == c'.pcs[t]
    && d'.headLock == c'.headLock && d'.tailLock == c'.tailLock
    && SameAtAll(c', d', Writes(c, c.pcs[t]))
  }

  lemma PushStoresOnly<T(!new)>(c: State<T>, t: Tid, c': State<T>, d: State<T>) returns (d': State<T>)
    requires SameView(c, d, t) && PushNext(c, t, c') && SameAtAll(c, d, Reads(c, c.pcs[t]))
    requires c.pcs[t].PushLocked? || c.pcs[t].PushStored?
    ensures t < |d.pcs| && PushNext(d, t, d') && SameOutcome(c, c', d', t)
  {
    assert SameAt(c, d, TailPtr);
    var e, node := Go(d, t, c'.pcs[t]), d.heap[d.tail];
    d' := if c.pcs[t].PushLocked? then e.(heap := d.heap[d.tail := node.(data := Full(c.pcs[t].v))])
          else e.(heap := d.heap[d.tail := node.(next := Some(c.pcs[t].p))]);
  }

  lemma PushReadsOnly<T(!new)>(c: State<T>, t: Tid, c': State<T>, d: State<T>) returns (d': State<T>)
    requires SameView(c, d, t) && PushNext(c, t, c') && SameAtAll(c, d, Reads(c, c.pcs[t]))
    ensures t < |d.pcs| && PushNext(d, t, d') && SameOutcome(c, c', d', t)
  {
    if c.pcs[t].PushLocked? || c.pcs[t].PushStored? {
      d' := PushStoresOnly(c, t, c', d);
    } else {
      d' := Go(d.(tailLock := c'.tailLock), t, c'.pcs[t]);
      if c.pcs[t].Entered? {
        d' := d'.(heap := d.heap[c'.pcs[t].p := Node(Absent, None)]);
      } else if c.pcs[t].PushLinked? {
        d' := d'.(tail := c.pcs[t].p);
      } else if c.pcs[t].PushMoved? {
        assert SameAt(c, d, Counter);
        d' := d'.(sz := d.sz + 1);
      }
    }
  }

  lemma PopTakesOnly<T>(c: State<T>, t: Tid, c': State<T>, d: State<T>) returns (d': State<T>)
    requires SameView(c, d, t) && PopNext(c, t, c') && SameAtAll(c, d, Reads(c, c.pcs[t]))
    requires c.pcs[t].PopTaking? || c.pcs[t].PopTaken? || c.pcs[t].PopFreeing?
    ensures t < |d.pcs| && PopNext(d, t, d') && SameOutcome(c, c', d', t)
  {
    var e := Go(d, t, c'.pcs[t]);
    match c.pcs[t] {
      case PopTaking =>
        assert SameAt(c, d, HeadPtr) && SameAt(c, d, DataOf(c.head));
        d' := e.(heap := d.heap[d.head := d.heap[d.head].(data := MovedFrom)]);
      case PopTaken(_) =>
        assert SameAt(c, d, HeadPtr) && SameAt(c, d, NextOf(c.head));
        d' := e.(head := c'.head, heap := d.heap[d.head := d.heap[d.head].(next := None)]);
      case PopFreeing(_, gone) => d' := e.(heap := d.heap - {gone});
    }
  }

  lemma PopReadsOnly<T>(c: State<T>, t: Tid, c': State<T>, d: State<T>) returns (d': State<T>)
    requires SameView(c, d, t) && PopNext(c, t, c') && SameAtAll(c, d, Reads(c, c.pcs[t]))
    ensures t < |d.pcs| && PopNext(d, t, d') && SameOutcome(c, c', d', t)
  {
    if c.pcs[t].PopTaking? || c.pcs[t].PopTaken? || c.pcs[t].PopFreeing? {
      d' := PopTakesOnly(c, t, c', d);
    } else {
      d' := Go(d.(headLock := c'.headLock, tailLock := c'.tailLock), t, c'.pcs[t]);
      if c.pcs[t].PopBoth? {
        assert SameAt(c, d, Counter);
        d' := d'.(sz := Max(0, d.sz - 1));
      } else if c.pcs[t].PopCounted? {
        assert SameAt(c, d, TailPtr);
      } else if c.pcs[t].PopSnapped? {
        assert SameAt(c, d, HeadPtr);
      }
    }
  }

  lemma FrontReadsOnly<T>(c: State<T>, t: Tid, c': State<T>, d: State<T>) returns (d': State<T>)
    requires SameView(c, d, t) && FrontNext(c, t, c') && SameAtAll(c, d, Reads(c, c.pcs[t]))
    ensures t < |d.pcs| && FrontNext(d, t, d') && SameOutcome(c, c', d', t)
  {
    var e := Go(d.(headLock := c'.headLock, tailLock := c'.tailLock), t, c'.pcs[t]);
    match c.pcs[t] {
      case FrontBoth =>
        assert SameAt(c, d, TailPtr);
        d' := e;
      case FrontSnapped(_) =>
        assert SameAt(c, d, HeadPtr);
        d' := e;
      case FrontReading =>
        assert SameAt(c, d, HeadPtr) && SameAt(c, d, DataOf(c.head));
        d' := e;
      case _ => d' := e;
    }
  }

  lemma EmptyReadsOnly<T>(c: State<T>, t: Tid, c': State<T>, d: State<T>) returns (d': State<T>)
    requires SameView(c, d, t) && EmptyNext(c, t, c') && SameAtAll(c, d, Reads(c, c.pcs[t]))
    ensures t < |d.pcs| && EmptyNext(d, t, d') && SameOutcome(c, c', d', t)
  {
    var e := Go(d.(headLock := c'.headLock, tailLock := c'.tailLock), t, c'.pcs[t]);
    match c.pcs[t] {
      case EmptyBoth =>
        assert SameAt(c, d, TailPtr);
        d' := e;
      case EmptySnapped(_) =>
        assert SameAt(c, d, HeadPtr);
        d' := e;
      case _ => d' := e;
    }
  }

  lemma SizeReadsOnly<T>(c: State<T>, t: Tid, c': State<T>, d: State<T>) returns (d': State<T>)
    requires SameView(c, d, t) && SizeNext(c, t, c') && SameAtAll(c, d, Reads(c, c.pcs[t]))
    ensures t < |d.pcs| && SizeNext(d, t, d') && SameOutcome(c, c', d', t)
  {
    var e := Go(d.(headLock := c'.headLock, tailLock := c'.tailLock), t, c'.pcs[t]);
    match c.pcs[t] {
      case SizeLocked =>
        assert SameAt(c, d, Counter);
        d' := e;
      case _ => d' := e;
    }
  }

  /** Reads leaves nothing out: wherever the same is held at those places, the same
      step can be taken, with the same outcome. */
  lemma StepReadsOnly<T(!new)>(c: State<T>, t: Tid, l: Label<T>, c': State<T>, d: State<T>) returns (d': State<T>)
    requires SameView(c, d, t) && ThreadNext(c, t, l, c') && SameAtAll(c, d, Reads(c, c.pcs[t]))
    ensures ThreadNext(d, t, l, d') && SameOutcome(c, c', d', t)
  {
    if
    case CallNext(c, t, l, c') => d' := Go(d, t, c'.pcs[t]);
    case l == Tau && PushNext(c, t, c') => d' := PushReadsOnly(c, t, c', d);
    case l == Tau && PopNext(c, t, c') => d' := PopReadsOnly(c, t, c', d);
    case l == Tau && FrontNext(c, t, c') => d' := FrontReadsOnly(c, t, c', d);
    case l == Tau && EmptyNext(c, t, c') => d' := EmptyReadsOnly(c, t, c', d);
    case l == Tau && SizeNext(c, t, c') => d' := SizeReadsOnly(c, t, c', d);
  }
}
