/**
 core/3rdparty/asio/basic_streambuf.hpp: a growable buffer behind the get and
 put pointers of std::streambuf, and its refinement to a byte queue with a
 hard maximum. Pointers are offsets from &buffer_[0].
 */
module StreamBuffer {
  import opened Basics

  const BUFFER_DELTA := 128

  function Zeros(n: nat): seq<char> { seq(n, i => '\0') }

  /** std::vector::resize. */
  function Resize(s: seq<char>, n: nat): seq<char> {
    if n <= |s| then s[..n] else s + Zeros(n - |s|)
  }

  /** What is left between gptr and pptr when reserve has moved the contents down
      by g places and then throws without moving the pointers. */
  function Smeared(s: seq<char>, g: nat): seq<char> {
    seq(|s|, i requires 0 <= i < |s| => if g + i < |s| then s[g + i] else s[i])
  }

  /** memmove of the contents to the start of the buffer. */
  function Shifted(buffer: seq<char>, g: nat, p: nat): seq<char>
    requires g <= p <= |buffer|
  {
    if g > 0 then buffer[g..p] + buffer[p - g..] else buffer
  }

  lemma ShiftedKeeps(buffer: seq<char>, g: nat, p: nat)
    requires g <= p <= |buffer|
    ensures |Shifted(buffer, g, p)| == |buffer| && Shifted(buffer, g, p)[..p - g] == buffer[g..p]
  {
  }

  lemma ShiftedSmears(buffer: seq<char>, g: nat, p: nat)
    requires g <= p <= |buffer|
    ensures |Shifted(buffer, g, p)| == |buffer| && Shifted(buffer, g, p)[g..p] == Smeared(buffer[g..p], g)
  {
    var b, s := Shifted(buffer, g, p), buffer[g..p];
    forall i | 0 <= i < p - g ensures b[g..p][i] == Smeared(s, g)[i] {
      assert b[g..p][i] == b[g + i];
      assert b[g + i] == if g + i < p - g then s[g + i] else buffer[g + i];
    }
  }

  lemma ResizeKeeps(s: seq<char>, n: nat, k: nat)
    requires k <= n && k <= |s|
    ensures |Resize(s, n)| == n && Resize(s, n)[..k] == s[..k]
  {
  }

  lemma PutAt(buffer: seq<char>, g: nat, p: nat, c: char)
    requires g <= p < |buffer|
    ensures buffer[p := c][g..p + 1] == buffer[g..p] + [c]
  {
  }

  class StreamBuf {
    const maxSize: nat
    var buffer: seq<char>
    var eback: int
    var gptr: int
    var egptr: int
    var pptr: int
    var epptr: int

    /** egptr may lag behind pptr: characters put are not yet offered to the reader. */
    ghost predicate Valid()
      reads this
    {
      && eback == 0
      && 0 <= gptr <= egptr <= pptr <= epptr <= maxSize
      && |buffer| == Max(epptr, 1)
    }

    ghost function Contents(): (s: seq<char>)
      reads this
      requires Valid()
      ensures |s| == pptr - gptr
    {
      buffer[gptr..pptr]
    }

    constructor (maximumSize: nat)
      ensures Valid() && maxSize == maximumSize && Contents() == []
      ensures gptr == 0 && epptr == Min(maximumSize, 128)
    {
      maxSize := maximumSize;
      var pend := Min(maximumSize, BUFFER_DELTA);
      buffer := Zeros(Max(pend, 1));
      eback, gptr, egptr := 0, 0, 0;
      pptr, epptr := 0, pend;
    }

    method Reserve(n: nat) returns (ok: bool)
      requires Valid()
      modifies this
      ensures Valid()
      ensures ok <==> |old(Contents())| + n <= maxSize
      ensures ok ==> Contents() == old(Contents()) && n <= epptr - pptr
      ensures ok ==> gptr == if n <= old(epptr - pptr) then old(gptr) else 0
      ensures !ok ==> eback == old(eback) && gptr == old(gptr) && egptr == old(egptr)
      ensures !ok ==> pptr == old(pptr) && epptr == old(epptr)
      ensures !ok ==> buffer == Shifted(old(buffer), old(gptr), old(pptr))
      ensures |buffer| >= old(|buffer|)
    {
      var gnext := gptr;
      var pnext := pptr;
      var pend := epptr;
      if n <= pend - pnext {
        return true;
      }
      ghost var contents := Contents();
      if gnext > 0 {
        pnext := pnext - gnext;
        MemMove(gnext, pnext);
      }
      assert buffer[..pnext] == contents;
      if n > pend - pnext {
        if n <= maxSize && pnext <= maxSize - n {
          pend := pnext + n;
          Grow(Max(pend, 1), pnext);
        } else {
          return false;
        }
      }
      assert buffer[..pnext] == contents;
      eback, gptr, egptr := 0, 0, pnext;
      pptr, epptr := pnext, pend;
      ok := true;
    }

    /** std::memmove of n bytes from g places on to the start. */
    method MemMove(g: nat, n: nat)
      requires 0 < g && g + n <= |buffer|
      modifies this`buffer
      ensures buffer == Shifted(old(buffer), g, g + n)
      ensures |buffer| == |old(buffer)| && buffer[..n] == old(buffer)[g..g + n]
    {
      ShiftedKeeps(buffer, g, g + n);
      buffer := buffer[g..g + n] + buffer[n..];
    }

    /** buffer_.resize; the first k bytes are kept. */
    method Grow(n: nat, ghost k: nat)
      requires k <= n && k <= |buffer|
      modifies this`buffer
      ensures |buffer| == n && buffer[..k] == old(buffer)[..k]
    {
      ResizeKeeps(buffer, n, k);
      buffer := Resize(buffer, n);
    }

    /** The n characters offered to the caller start at pptr. */
    method Prepare(n: nat) returns (ok: bool)
      requires Valid()
      modifies this
      ensures Valid()
      ensures ok <==> |old(Contents())| + n <= maxSize
      ensures ok ==> Contents() == old(Contents()) && n <= epptr - pptr
      ensures ok ==> gptr == if n <= old(epptr - pptr) then old(gptr) else 0
      ensures !ok ==> gptr == old(gptr) && egptr == old(egptr) && pptr == old(pptr) && epptr == old(epptr)
      ensures !ok ==> Contents() == Smeared(old(Contents()), old(gptr))
    {
      ShiftedSmears(buffer, gptr, pptr);
      ok := Reserve(n);
    }

    /** The caller writing into what Prepare gave it. */
    method Fill(data: seq<char>)
      requires Valid() && |data| <= epptr - pptr
      modifies this`buffer
      ensures Valid() && Contents() == old(Contents())
      ensures buffer[pptr..pptr + |data|] == data
    {
      buffer := buffer[..pptr] + data + buffer[pptr + |data|..];
    }

    /** Moves at most the whole output sequence; exact if and only if that is below 2 GiB. */
    method Commit(n: nat)
      requires Valid()
      modifies this`egptr, this`pptr
      ensures
        var moved := Min(n, epptr - old(pptr));
        && (moved < 0x8000_0000 ==>
              && Valid() && pptr == old(pptr) + moved
              && Contents() == old(Contents()) + buffer[old(pptr)..old(pptr) + moved])
        && (moved >= 0x8000_0000 ==> pptr == old(pptr) + IntOf(moved) != old(pptr) + moved)
    {
      var k := Min(n, epptr - pptr);
      IntOfIsExactIff(k);
      pptr := pptr + IntOf(k);
      egptr := pptr;
    }

    method Consume(n: nat)
      requires Valid()
      modifies this`eback, this`gptr, this`egptr
      ensures
        var dropped := Min(n, |old(Contents())|);
        && (dropped < 0x8000_0000 ==>
              && Valid() && gptr == old(gptr) + dropped
              && Contents() == old(Contents())[dropped..])
        && (dropped >= 0x8000_0000 ==> gptr == old(gptr) + IntOf(dropped) != old(gptr) + dropped)
    {
      var k := n;
      if egptr < pptr {
        eback, egptr := 0, pptr;
      }
      if gptr + k > pptr {
        k := pptr - gptr;
      }
      IntOfIsExactIff(k);
      gptr := gptr + IntOf(k);
    }

    /** None is eof. */
    method Underflow() returns (c: Option<char>)
      requires Valid()
      modifies this`eback, this`egptr
      ensures Valid() && Contents() == old(Contents())
      ensures c == if Contents() == [] then None else Some(Contents()[0])
      ensures c.Some? ==> gptr < egptr
    {
      if gptr < pptr {
        eback, egptr := 0, pptr;
        c := Some(buffer[gptr]);
      } else {
        c := None;
      }
    }

    /** *pptr() = c and pbump(1). */
    method Store(c: char)
      requires Valid() && pptr < epptr
      modifies this`buffer, this`pptr
      ensures Valid() && Contents() == old(Contents()) + [c]
      ensures buffer == old(buffer)[old(pptr) := c] && pptr == old(pptr) + 1
    {
      PutAt(buffer, gptr, pptr, c);
      buffer := buffer[pptr := c];
      pptr := pptr + 1;
    }

    /** Throws exactly when the put area is used up and the size is at its maximum;
        gptr is then at the start and nothing has moved. */
    method Overflow(c: Option<char>) returns (ok: bool)
      requires Valid()
      modifies this
      ensures Valid()
      ensures !ok <==> c.Some? && old(pptr) == old(epptr) && |old(Contents())| == maxSize
      ensures !ok ==> buffer == old(buffer) && Contents() == old(Contents())
      ensures !ok ==> eback == old(eback) && gptr == old(gptr) && egptr == old(egptr)
      ensures !ok ==> pptr == old(pptr) && epptr == old(epptr)
      ensures ok ==> Contents() == old(Contents()) + if c.Some? then [c.value] else []
    {
      ok := true;
      if c.Some? {
        if pptr == epptr {
          var size := pptr - gptr;
          if size < maxSize && maxSize - size < BUFFER_DELTA {
            ok := Reserve(maxSize - size);
          } else {
            ok := Reserve(BUFFER_DELTA);
          }
          if !ok {
            assert size == maxSize && gptr == 0;
            return;
          }
        }
        Store(c.value);
      }
    }

    /** std::streambuf::sputc, the only way characters reach Overflow. A character
        is refused exactly when the buffer already holds its maximum. */
    method Put(c: char) returns (ok: bool)
      requires Valid()
      modifies this
      ensures Valid()
      ensures ok <==> |old(Contents())| < maxSize
      ensures Contents() == if ok then old(Contents()) + [c] else old(Contents())
      ensures old(pptr) < old(epptr) ==>
                buffer == old(buffer)[old(pptr) := c] && pptr == old(pptr) + 1 && epptr == old(epptr)
    {
      if pptr < epptr {
        Store(c);
        ok := true;
      } else {
        ok := Overflow(Some(c));
      }
    }

    /** std::streambuf::sbumpc, which asks Underflow when the get area runs out. */
    method Get() returns (c: Option<char>)
      requires Valid()
      modifies this`eback, this`gptr, this`egptr
      ensures Valid()
      ensures c == if old(Contents()) == [] then None else Some(old(Contents())[0])
      ensures Contents() == if old(Contents()) == [] then [] else old(Contents())[1..]
    {
      if gptr == egptr {
        c := Underflow();
        if c == None {
          return;
        }
      }
      c := Some(buffer[gptr]);
      gptr := gptr + 1;
    }

    /** read_size_helper; capacity is whatever the vector happens to own. The
        amount it names can always be prepared. */
    method ReadSizeHelper(limit: nat, capacity: nat) returns (n: nat)
      requires Valid() && capacity >= |buffer|
      ensures |Contents()| + n <= maxSize
      ensures n <= limit && n <= Max(512, capacity - |Contents()|)
      ensures n < limit && |Contents()| + n < maxSize ==> n == Max(512, capacity - |Contents()|)
    {
      var size := pptr - gptr;
      n := Min(Max(512, capacity - size), Min(limit, maxSize - size));
    }
  }

  predicate Repeats(s: seq<char>, g: nat) {
    forall i :: 0 <= i < |s| - g ==> s[g + i] == s[i]
  }

  /** A failed prepare keeps just the contents that repeat with period gptr. */
  lemma SmearedIsKeptIff(s: seq<char>, g: nat)
    ensures Smeared(s, g) == s <==> Repeats(s, g)
  {
    if Repeats(s, g) {
      forall i | 0 <= i < |s| ensures Smeared(s, g)[i] == s[i] {
      }
      assert Smeared(s, g) == s;
    } else {
      var i :| 0 <= i < |s| - g && s[g + i] != s[i];
      assert Smeared(s, g)[i] != s[i];
    }
  }

  /** So n bytes are safe from a failed prepare, whatever they are, if and only if
      gptr is at the start or at least as many bytes lie before it as after it. */
  lemma FailedPrepareIsSafeIff(n: nat, g: nat)
    ensures (forall s: seq<char> :: |s| == n ==> Smeared(s, g) == s) <==> g == 0 || n <= g
  {
    forall s: seq<char> | |s| == n && (g == 0 || n <= g) ensures Smeared(s, g) == s {
      SmearedIsKeptIff(s, g);
    }
    if 0 < g < n {
      var s := seq(n, i => if i == 0 then 'a' else 'b');
      assert Smeared(s, g)[0] == s[g] != s[0];
    }
  }

  /** What a caller does with prepare: write and commit. */
  method Receive(sb: StreamBuf, n: nat, data: seq<char>) returns (ok: bool)
    requires sb.Valid() && |data| <= n && |data| < 0x8000_0000
    modifies sb
    ensures sb.Valid()
    ensures ok <==> |old(sb.Contents())| + n <= sb.maxSize
    ensures ok ==> sb.Contents() == old(sb.Contents()) + data
    ensures ok && old(sb.gptr) == 0 ==> sb.gptr == 0
    ensures !ok ==> sb.Contents() == Smeared(old(sb.Contents()), old(sb.gptr))
  {
    ok := sb.Prepare(n);
    if ok {
      sb.Fill(data);
      sb.Commit(|data|);
    }
  }

  /** A full buffer from which d bytes have been read, and a prepare of more than
      they free: it throws, and what was left to read is smeared. */
  method FailPrepare(data: seq<char>, d: nat, n: nat) returns (sb: StreamBuf)
    requires d <= |data| < 0x8000_0000 && d < n
    ensures sb.Valid() && sb.maxSize == |data|
    ensures sb.Contents() == Smeared(data[d..], d)
  {
    sb := new StreamBuf(|data|);
    var ok := Receive(sb, |data|, data);
    assert [] + data == data;
    sb.Consume(d);
    ok := sb.Prepare(n);
  }

  lemma CddFromBcd()
    ensures Smeared("abcd"[1..], 1) == "cdd"
  {
    var s := Smeared("abcd"[1..], 1);
    assert s[0] == 'c' && s[1] == 'd' && s[2] == 'd';
  }

  /** One such loss: with 'a' read from "abcd" a prepare of 2 leaves "cdd". */
  method FailedPrepareLoses() returns (sb: StreamBuf)
    ensures sb.Valid() && sb.maxSize == 4 && sb.Contents() == "cdd" != "bcd"
  {
    CddFromBcd();
    sb := FailPrepare("abcd", 1, 2);
  }

  // ----------------------------------------------------- the bounded byte queue

  /** Write puts data where the last prepare said; Peek is underflow. */
  datatype Op =
    | Prepare(n: nat) | Write(data: seq<char>) | Commit(n: nat)
    | Consume(n: nat) | PutC(c: char) | Peek | GetC

  /** What a reader was given, None at the end of the data, and puts that threw. */
  datatype Out = Got(c: Option<char>) | Refused

  /** What the run so far shows: the bytes held; how many more have been prepared,
      and the first of these as far as they have been written; the answers given;
      and whether a prepare has failed, after which the bytes held are not the queue's. */
  datatype View = View(q: seq<char>, prepared: nat, area: seq<char>, outs: seq<Out>, spoilt: bool)

  function First(q: seq<char>): Option<char> { if q == [] then None else Some(q[0]) }

  function Rest(q: seq<char>): seq<char> { if q == [] then [] else q[1..] }

  /** A character put takes the place of the first one prepared. */
  function QueueStep(max: nat, v: View, op: Op): View
    requires OpFits(v, op)
  {
    match op
    case Prepare(n) =>
      if |v.q| + n > max then v.(spoilt := true) else v.(prepared := n, area := [])
    case Write(data) => v.(area := data)
    case Commit(n) => v.(q := v.q + v.area[..n], prepared := v.prepared - n, area := v.area[n..])
    case Consume(n) => v.(q := v.q[Min(n, |v.q|)..])
    case PutC(c) =>
      if |v.q| >= max then v.(outs := v.outs + [Refused])
      else v.(q := v.q + [c], prepared := Max(0, v.prepared - 1), area := Rest(v.area))
    case Peek => v.(outs := v.outs + [Got(First(v.q))])
    case GetC => v.(q := Rest(v.q), outs := v.outs + [Got(First(v.q))])
  }

  /** A caller writes no more than is prepared, commits what it has written, and
      moves less than 2 GiB at a time; a failed prepare ends the run. */
  predicate OpFits(v: View, op: Op) {
    && !v.spoilt && |v.area| <= v.prepared
    && match op
       case Write(data) => |data| <= v.prepared
       case Commit(n) => n <= |v.area| && n < 0x8000_0000
       case Consume(n) => Min(n, |v.q|) < 0x8000_0000
       case _ => true
  }

  const START := View([], 0, [], [], false)

  predicate Fits(max: nat, v: View, ops: seq<Op>)
    decreases ops
  {
    ops == [] || (OpFits(v, ops[0]) && Fits(max, QueueStep(max, v, ops[0]), ops[1..]))
  }

  function QueueRun(max: nat, v: View, ops: seq<Op>): View
    requires Fits(max, v, ops)
    decreases ops
  {
    if ops == [] then v else QueueRun(max, QueueStep(max, v, ops[0]), ops[1..])
  }

  /** The buffer holds the queue, with the prepared bytes behind it. */
  ghost predicate Shows(sb: StreamBuf, v: View)
    reads sb
  {
    && sb.Valid()
    && (!v.spoilt ==> ShowsAs(sb, v.q, v.prepared, v.area))
  }

  ghost predicate ShowsAs(sb: StreamBuf, q: seq<char>, prepared: int, area: seq<char>)
    reads sb
  {
    sb.Valid() && sb.Contents() == q && AreaAt(sb.buffer, sb.pptr, sb.epptr, prepared, area)
  }

  predicate AreaAt(buffer: seq<char>, pptr: int, epptr: int, prepared: int, area: seq<char>) {
    && 0 <= pptr && epptr <= |buffer|
    && |area| <= prepared <= epptr - pptr
    && buffer[pptr..pptr + |area|] == area
  }

  /** One operation on the buffer is one on the queue. */
  method Operate(sb: StreamBuf, op: Op, ghost v: View) returns (out: seq<Out>)
    requires Shows(sb, v) && OpFits(v, op)
    modifies sb
    ensures var v' := QueueStep(sb.maxSize, v, op);
            && Shows(sb, v') && v.outs + out == v'.outs
            && (v'.spoilt ==> sb.Contents() == Smeared(v.q, old(sb.gptr)))
  {
    out := [];
    match op {
      case Prepare(n) => OperatePrepare(sb, n, v);
      case Write(data) => OperateWrite(sb, data, v);
      case Commit(n) => OperateCommit(sb, n, v);
      case Consume(n) => OperateConsume(sb, n, v);
      case PutC(c) =>
        var ok := OperatePut(sb, c, v);
        out := if ok then [] else [Refused];
      case Peek =>
        var c := sb.Underflow();
        out := [Got(c)];
      case GetC =>
        var c := OperateGet(sb, v);
        out := [Got(c)];
    }
  }

  method OperateWrite(sb: StreamBuf, data: seq<char>, ghost v: View)
    requires Shows(sb, v) && OpFits(v, Write(data))
    modifies sb
    ensures ShowsAs(sb, v.q, v.prepared, data)
  {
    sb.Fill(data);
  }

  method OperateConsume(sb: StreamBuf, n: nat, ghost v: View)
    requires Shows(sb, v) && OpFits(v, Consume(n))
    modifies sb
    ensures ShowsAs(sb, v.q[Min(n, |v.q|)..], v.prepared, v.area)
  {
    sb.Consume(n);
  }

  method OperateGet(sb: StreamBuf, ghost v: View) returns (c: Option<char>)
    requires Shows(sb, v) && OpFits(v, GetC)
    modifies sb
    ensures ShowsAs(sb, Rest(v.q), v.prepared, v.area) && c == First(v.q)
  {
    c := sb.Get();
  }

  method OperatePrepare(sb: StreamBuf, n: nat, ghost v: View)
    requires Shows(sb, v) && OpFits(v, Prepare(n))
    modifies sb
    ensures |v.q| + n <= sb.maxSize ==> ShowsAs(sb, v.q, n, [])
    ensures |v.q| + n > sb.maxSize ==> sb.Valid() && sb.Contents() == Smeared(v.q, old(sb.gptr))
  {
    var ok := sb.Prepare(n);
  }

  method OperateCommit(sb: StreamBuf, n: nat, ghost v: View)
    requires Shows(sb, v) && OpFits(v, Commit(n))
    modifies sb
    ensures ShowsAs(sb, v.q + v.area[..n], v.prepared - n, v.area[n..])
  {
    AreaMoves(sb.buffer, sb.pptr, sb.epptr, v.prepared, v.area, n);
    CommitPart(sb, n, v.q, v.area[..n]);
  }

  method CommitPart(sb: StreamBuf, n: nat, ghost q: seq<char>, ghost part: seq<char>)
    requires sb.Valid() && sb.Contents() == q && n <= sb.epptr - sb.pptr && n < 0x8000_0000
    requires sb.buffer[sb.pptr..sb.pptr + n] == part
    modifies sb
    ensures sb.Valid() && sb.Contents() == q + part
    ensures sb.buffer == old(sb.buffer) && sb.pptr == old(sb.pptr) + n && sb.epptr == old(sb.epptr)
  {
    sb.Commit(n);
  }

  /** Committing the first n bytes of the area leaves the others prepared. */
  lemma AreaMoves(buffer: seq<char>, p: int, epptr: int, prepared: int, area: seq<char>, n: nat)
    requires AreaAt(buffer, p, epptr, prepared, area) && n <= |area|
    ensures n <= epptr - p && buffer[p..p + n] == area[..n]
    ensures AreaAt(buffer, p + n, epptr, prepared - n, area[n..])
  {
    SliceOfSlice(buffer, p, |area|, n);
  }

  method OperatePut(sb: StreamBuf, c: char, ghost v: View) returns (ok: bool)
    requires Shows(sb, v) && OpFits(v, PutC(c))
    modifies sb
    ensures ok <==> |v.q| < sb.maxSize
    ensures if ok then ShowsAs(sb, v.q + [c], Max(0, v.prepared - 1), Rest(v.area))
            else ShowsAs(sb, v.q, v.prepared, v.area)
  {
    PutTakesOne(sb.buffer, sb.pptr, v.area, c);
    ok := sb.Put(c);
  }

  lemma PutTakesOne(buffer: seq<char>, p: nat, area: seq<char>, c: char)
    requires p + |area| <= |buffer| && buffer[p..p + |area|] == area
    ensures area != [] ==> buffer[p := c][p + 1..p + |area|] == area[1..]
  {
    if area != [] {
      SliceOfSlice(buffer, p, |area|, 1);
      assert buffer[p := c][p + 1..p + |area|] == buffer[p + 1..p + |area|];
    }
  }

  lemma SliceOfSlice(s: seq<char>, p: nat, len: nat, n: nat)
    requires n <= len && p + len <= |s|
    ensures s[p..p + n] == s[p..p + len][..n] && s[p + n..p + len] == s[p..p + len][n..]
  {
  }

  /** REFINEMENT. Any run of prepare, write, commit, consume, put, peek and get, in
      any order a caller may use them, from construction to the first prepare that
      throws, is a run of the bounded byte queue: across shifts, growth, refused
      characters and a lagging egptr the bytes between gptr and pptr are the
      queue, readers see it in order, and it throws where the queue is full. */
  method Drive(max: nat, ops: seq<Op>) returns (sb: StreamBuf, outs: seq<Out>)
    requires Fits(max, START, ops)
    ensures sb.maxSize == max && Shows(sb, QueueRun(max, START, ops))
    ensures outs == QueueRun(max, START, ops).outs
  {
    sb := new StreamBuf(max);
    ghost var v := START;
    outs := [];
    var k := 0;
    assert ops[0..] == ops;
    while k < |ops|
      invariant 0 <= k <= |ops| && fresh(sb) && sb.maxSize == max
      invariant Shows(sb, v) && outs == v.outs
      invariant Fits(max, v, ops[k..]) && QueueRun(max, v, ops[k..]) == QueueRun(max, START, ops)
    {
      Unroll(max, v, ops, k);
      var out := Operate(sb, ops[k], v);
      outs := outs + out;
      v := QueueStep(max, v, ops[k]);
      k := k + 1;
    }
  }

  lemma Unroll(max: nat, v: View, ops: seq<Op>, k: nat)
    requires k < |ops| && Fits(max, v, ops[k..])
    ensures OpFits(v, ops[k])
    ensures var v' := QueueStep(max, v, ops[k]);
            Fits(max, v', ops[k + 1..]) && QueueRun(max, v', ops[k + 1..]) == QueueRun(max, v, ops[k..])
  {
    assert ops[k..][0] == ops[k] && ops[k..][1..] == ops[k + 1..];
  }

  /** What an operation adds to the queue. */
  function GivenBy(max: nat, v: View, op: Op): seq<char>
    requires OpFits(v, op)
  {
    match op
    case Commit(n) => v.area[..n]
    case PutC(c) => if |v.q| >= max then [] else [c]
    case _ => []
  }

  /** What it hands out. */
  function TakenBy(v: View, op: Op): seq<char> {
    match op
    case Consume(n) => v.q[..Min(n, |v.q|)]
    case GetC => if v.q == [] then [] else [v.q[0]]
    case _ => []
  }

  function Given(max: nat, v: View, ops: seq<Op>): seq<char>
    requires Fits(max, v, ops)
    decreases ops
  {
    if ops == [] then []
    else GivenBy(max, v, ops[0]) + Given(max, QueueStep(max, v, ops[0]), ops[1..])
  }

  function Taken(max: nat, v: View, ops: seq<Op>): seq<char>
    requires Fits(max, v, ops)
    decreases ops
  {
    if ops == [] then []
    else TakenBy(v, ops[0]) + Taken(max, QueueStep(max, v, ops[0]), ops[1..])
  }

  lemma StepConserves(max: nat, v: View, op: Op)
    requires OpFits(v, op) && |v.q| + v.prepared <= max
    ensures var v' := QueueStep(max, v, op);
            && TakenBy(v, op) + v'.q == v.q + GivenBy(max, v, op)
            && |v'.q| + v'.prepared <= max
  {
    var v' := QueueStep(max, v, op);
    match op {
      case Consume(n) => assert v.q[..Min(n, |v.q|)] + v.q[Min(n, |v.q|)..] == v.q;
      case GetC => if v.q != [] { assert [v.q[0]] + v.q[1..] == v.q; }
      case _ =>
    }
  }

  /** CONSERVATION. Nothing is lost, repeated or reordered: what was there at first
      and what was added are, in order, what was taken and what is left; and what
      is left and prepared never exceeds max. */
  lemma {:induction false} QueueConserves(max: nat, v: View, ops: seq<Op>)
    requires Fits(max, v, ops) && |v.q| + v.prepared <= max
    ensures v.q + Given(max, v, ops) == Taken(max, v, ops) + QueueRun(max, v, ops).q
    ensures |QueueRun(max, v, ops).q| + QueueRun(max, v, ops).prepared <= max
    decreases ops
  {
    if ops == [] {
      assert v.q + [] == [] + v.q;
    } else {
      var op := ops[0];
      var v' := QueueStep(max, v, op);
      StepConserves(max, v, op);
      QueueConserves(max, v', ops[1..]);
      Chain(v.q, GivenBy(max, v, op), Given(max, v', ops[1..]), TakenBy(v, op), v'.q,
            Taken(max, v', ops[1..]), QueueRun(max, v, ops).q);
    }
  }

  lemma Chain(q: seq<char>, a: seq<char>, more: seq<char>, t: seq<char>, q': seq<char>, rest: seq<char>, end: seq<char>)
    requires t + q' == q + a && q' + more == rest + end
    ensures q + (a + more) == (t + rest) + end
  {
    assert q + (a + more) == (q + a) + more == t + (q' + more) == t + (rest + end) == (t + rest) + end;
  }
}
