/**
 What the message codec promises: round trips, the vectors it does not restore,
 how it answers damaged messages, and what the prefix readers agree with.
 */
module MessageTheorems {
  import opened Basics
  import opened MessageFormat

  /** Four bytes, the least significant first. */
  function Unsigned(m: seq<Byte>, i: nat): int
    requires i + 4 <= |m|
  {
    var b0: int, b1: int, b2: int, b3: int := m[i], m[i + 1], m[i + 2], m[i + 3];
    b0 + 256 * b1 + 65536 * b2 + 16777216 * b3
  }

  lemma BytesOfLe(v: int)
    requires IsInt(v)
    ensures Unsigned(Le(v), 0) == if v < 0 then v + 0x1_0000_0000 else v
  {
    var u := if v < 0 then v + 0x1_0000_0000 else v;
    assert u / 65536 == u / 256 / 256;
    assert u / 16777216 == u / 256 / 256 / 256;
  }

  /** A field on the wire: an integer, or a length and what follows it. */
  lemma FieldLayout(f: Field)
    requires FieldOk(f) && IsInt(Width(f))
    ensures
      var b := FieldBytes(f);
      && |b| >= 4
      && match f
         case Num(v) => |b| == 4 && Unsigned(b, 0) == if v < 0 then v + 0x1_0000_0000 else v
         case Str(s) => Unsigned(b, 0) == |s| && b[4..] == s
         case Vec(vs) => Unsigned(b, 0) == |vs| && |b| == 4 + |vs| * 4 && b[4..] == LeAll(vs)
  {
    match f {
      case Num(v) => BytesOfLe(v);
      case Str(s) => BytesOfLe(|s|);
      case Vec(vs) => BytesOfLe(|vs|);
    }
  }

  lemma {:induction false} VectorLayout(vs: seq<int>, i: nat)
    requires (forall k :: 0 <= k < |vs| ==> IsInt(vs[k])) && i < |vs|
    ensures Unsigned(LeAll(vs), 4 * i) == if vs[i] < 0 then vs[i] + 0x1_0000_0000 else vs[i]
  {
    if i == 0 {
      BytesOfLe(vs[0]);
    } else {
      VectorLayout(vs[1..], i - 1);
      assert LeAll(vs)[4..] == LeAll(vs[1..]);
    }
  }

  /** A message begins with its size and its first field, the type. */
  lemma MessageLayout(fs: seq<Field>)
    requires Writable(fs) && fs != [] && fs[0].Num?
    ensures
      var m := Serialise(fs);
      && |m| >= 8 && Unsigned(m, 0) == |m|
      && m[4..8] == Le(fs[0].v)
      && Unsigned(m, 4) == if fs[0].v < 0 then fs[0].v + 0x1_0000_0000 else fs[0].v
  {
    var m := Serialise(fs);
    BytesOfLe(|m|);
    BytesOfLe(fs[0].v);
    assert AllBytes(fs) == Le(fs[0].v) + AllBytes(fs[1..]);
    assert m[4..8] == Le(fs[0].v);
  }

  /** What variable g holds after reading the field f that was sent. */
  function Landed(f: Field, g: Field): Field {
    if f.Vec? && g.Vec? then Vec(Overlay(g.vs, f.vs)) else f
  }

  lemma {:induction false} IntsOfLeAll(m: seq<Byte>, offs: nat, vs: seq<int>)
    requires forall i :: 0 <= i < |vs| ==> IsInt(vs[i])
    requires offs + |vs| * 4 <= |m| && m[offs..offs + |vs| * 4] == LeAll(vs)
    ensures IntsAt(m, offs, |vs|) == vs
    decreases |vs|
  {
    if vs != [] {
      var part := m[offs..offs + |vs| * 4];
      assert part[..INT_SZ] == Le(vs[0]) && part[INT_SZ..] == LeAll(vs[1..]);
      assert m[offs..offs + INT_SZ] == part[..INT_SZ];
      assert m[offs + INT_SZ..offs + INT_SZ + |vs[1..]| * 4] == part[INT_SZ..];
      LeRoundTrip(vs[0]);
      IntsOfLeAll(m, offs + INT_SZ, vs[1..]);
    }
  }

  /** The length in front of a field, and what follows it. */
  lemma LengthAt(m: seq<Byte>, offs: nat, n: int, b: seq<Byte>)
    requires IsInt(n) && StandsAt(m, offs, Le(n) + b)
    ensures IntAt(m, offs) == n && StandsAt(m, offs + INT_SZ, b)
  {
    StandsInParts(m, offs, Le(n), b);
    LeRoundTrip(n);
  }

  lemma NumRoundTrip(m: seq<Byte>, inSize: int, offs: nat, v: int, g: Field)
    requires IsInt(v) && g.Num? && IsInt(inSize) && offs + INT_SZ <= inSize <= |m|
    requires StandsAt(m, offs, Le(v))
    ensures ReadField(m, inSize, offs, g) == Reading(offs + INT_SZ, Good, Num(v))
  {
    LeRoundTrip(v);
  }

  lemma StrRoundTrip(m: seq<Byte>, inSize: int, offs: nat, s: seq<Byte>, g: Field)
    requires g.Str? && IsInt(inSize) && offs + INT_SZ + |s| <= inSize <= |m|
    requires IntAt(m, offs) == |s| && StandsAt(m, offs + INT_SZ, s)
    ensures ReadField(m, inSize, offs, g) == Reading(offs + INT_SZ + |s|, Good, Str(s))
  {
  }

  lemma VecRoundTrip(m: seq<Byte>, inSize: int, offs: nat, vs: seq<int>, g: Field)
    requires FieldOk(Vec(vs)) && g.Vec? && IsInt(inSize) && offs + INT_SZ + |vs| * 4 <= inSize <= |m|
    requires IntAt(m, offs) == |vs| && StandsAt(m, offs + INT_SZ, LeAll(vs))
    ensures ReadField(m, inSize, offs, g) == Reading(offs + INT_SZ + |vs| * 4, Good, Vec(Overlay(g.vs, vs)))
  {
    IntsOfLeAll(m, offs + INT_SZ, vs);
  }

  /** A field read where it was written. */
  lemma FieldRoundTrip(m: seq<Byte>, inSize: int, offs: nat, f: Field, g: Field)
    requires FieldOk(f) && SameKind(f, g) && IsInt(inSize) && offs + Width(f) <= inSize <= |m|
    requires StandsAt(m, offs, FieldBytes(f))
    ensures ReadField(m, inSize, offs, g) == Reading(offs + Width(f), Good, Landed(f, g))
  {
    match f {
      case Num(v) => NumRoundTrip(m, inSize, offs, v, g);
      case Str(s) =>
        LengthAt(m, offs, |s|, s);
        StrRoundTrip(m, inSize, offs, s, g);
      case Vec(vs) =>
        LengthAt(m, offs, |vs|, LeAll(vs));
        VecRoundTrip(m, inSize, offs, vs, g);
    }
  }

  lemma {:induction false} WidthsSplit(fs: seq<Field>, k: nat)
    requires k < |fs|
    ensures Widths(fs[k..]) == Width(fs[k]) + Widths(fs[k + 1..])
    ensures Widths(fs[k..]) <= Widths(fs)
  {
    assert fs[k..][1..] == fs[k + 1..];
    if k > 0 {
      WidthsSplit(fs[1..], k - 1);
      assert fs[1..][k - 1..] == fs[k..];
    } else {
      assert fs[0..] == fs;
    }
  }

  lemma TailWritable(fs: seq<Field>, k: nat)
    requires Writable(fs) && k < |fs|
    ensures Writable(fs[k..]) && Writable(fs[k + 1..]) && IsInt(Width(fs[k]))
    ensures AllBytes(fs[k..]) == FieldBytes(fs[k]) + AllBytes(fs[k + 1..])
  {
    WidthsSplit(fs, k);
    assert fs[k..][1..] == fs[k + 1..];
  }

  /** The bytes b stand in m from offs on. */
  predicate StandsAt(m: seq<Byte>, offs: nat, b: seq<Byte>) {
    offs + |b| <= |m| && m[offs..offs + |b|] == b
  }

  lemma StandsInParts(m: seq<Byte>, offs: nat, a: seq<Byte>, b: seq<Byte>)
    requires StandsAt(m, offs, a + b)
    ensures StandsAt(m, offs, a) && StandsAt(m, offs + |a|, b)
  {
    assert m[offs..offs + |a|] == m[offs..offs + |a| + |b|][..|a|];
    assert m[offs + |a|..offs + |a| + |b|] == m[offs..offs + |a| + |b|][|a|..];
  }

  /** The variables once those from k on have been read from the fields in rest. */
  function LandedTail(rest: seq<Field>, gs: seq<Field>, k: nat): (r: seq<Field>)
    requires k + |rest| == |gs|
    ensures |r| == |gs|
  {
    seq(|gs|, i requires 0 <= i < |gs| => if i < k then gs[i] else Landed(rest[i - k], gs[i]))
  }

  lemma LandedNext(rest: seq<Field>, gs: seq<Field>, k: nat)
    requires k + |rest| == |gs| && |rest| > 0
    ensures LandedTail(rest[1..], gs[k := Landed(rest[0], gs[k])], k + 1) == LandedTail(rest, gs, k)
  {
  }

  predicate SameKindsFrom(rest: seq<Field>, gs: seq<Field>, k: nat) {
    k + |rest| == |gs| && forall i :: 0 <= i < |rest| ==> SameKind(rest[i], gs[k + i])
  }

  lemma RestFacts(rest: seq<Field>)
    requires Writable(rest) && rest != []
    ensures FieldOk(rest[0]) && IsInt(Width(rest[0])) && Writable(rest[1..])
    ensures Widths(rest) == Width(rest[0]) + Widths(rest[1..])
  {
  }

  lemma FirstStands(m: seq<Byte>, offs: nat, rest: seq<Field>)
    requires Writable(rest) && rest != [] && StandsAt(m, offs, AllBytes(rest))
    ensures FieldOk(rest[0]) && IsInt(Width(rest[0])) && Writable(rest[1..])
    ensures StandsAt(m, offs, FieldBytes(rest[0]))
    ensures StandsAt(m, offs + Width(rest[0]), AllBytes(rest[1..]))
  {
    StandsInParts(m, offs, FieldBytes(rest[0]), AllBytes(rest[1..]));
  }

  lemma StepRead(m: seq<Byte>, inSize: int, offs: nat, gs: seq<Field>, k: nat, r: Reading)
    requires offs <= inSize <= |m| && IsInt(inSize) && k < |gs|
    requires ReadField(m, inSize, offs, gs[k]) == r
    ensures ReadFrom(m, inSize, Outcome(offs, Good, gs), k)
         == var o := Outcome(r.offs, r.status, gs[k := r.f]);
            if r.status == Good then ReadFrom(m, inSize, o, k + 1) else o
  {
  }

  /** From offs on, the variables from k on read one by one as the fields in rest. */
  ghost predicate ReadsAs(m: seq<Byte>, inSize: int, offs: nat, rest: seq<Field>, gs: seq<Field>, k: nat)
    requires inSize <= |m| && IsInt(inSize) && k + |rest| == |gs|
    decreases |rest|
  {
    rest == [] ||
    var next := offs + Width(rest[0]);
    && next <= inSize
    && ReadField(m, inSize, offs, gs[k]) == Reading(next, Good, Landed(rest[0], gs[k]))
    && ReadsAs(m, inSize, next, rest[1..], gs, k + 1)
  }

  lemma FirstReads(m: seq<Byte>, inSize: int, offs: nat, rest: seq<Field>, g: Field)
    requires Writable(rest) && rest != [] && SameKind(rest[0], g) && IsInt(inSize)
    requires offs + Widths(rest) <= inSize <= |m| && StandsAt(m, offs, AllBytes(rest))
    ensures ReadField(m, inSize, offs, g) == Reading(offs + Width(rest[0]), Good, Landed(rest[0], g))
  {
    RestFacts(rest);
    FirstStands(m, offs, rest);
    FieldRoundTrip(m, inSize, offs, rest[0], g);
  }

  lemma RestStands(m: seq<Byte>, inSize: int, offs: nat, rest: seq<Field>, gs: seq<Field>, k: nat)
    requires Writable(rest) && rest != [] && SameKindsFrom(rest, gs, k)
    requires offs + Widths(rest) <= inSize <= |m| && StandsAt(m, offs, AllBytes(rest))
    ensures Writable(rest[1..]) && SameKindsFrom(rest[1..], gs, k + 1)
    ensures offs + Width(rest[0]) + Widths(rest[1..]) <= inSize
    ensures StandsAt(m, offs + Width(rest[0]), AllBytes(rest[1..]))
  {
    RestFacts(rest);
    FirstStands(m, offs, rest);
    forall i | 0 <= i < |rest[1..]| ensures SameKind(rest[1..][i], gs[k + 1 + i]) {
      assert SameKind(rest[i + 1], gs[k + (i + 1)]);
    }
  }

  lemma {:induction false} BytesReadAs(m: seq<Byte>, inSize: int, offs: nat, rest: seq<Field>, gs: seq<Field>, k: nat)
    requires Writable(rest) && SameKindsFrom(rest, gs, k) && IsInt(inSize)
    requires offs + Widths(rest) <= inSize <= |m| && StandsAt(m, offs, AllBytes(rest))
    ensures ReadsAs(m, inSize, offs, rest, gs, k)
    decreases |rest|
  {
    if rest != [] {
      FirstReads(m, inSize, offs, rest, gs[k]);
      RestStands(m, inSize, offs, rest, gs, k);
      BytesReadAs(m, inSize, offs + Width(rest[0]), rest[1..], gs, k + 1);
    }
  }

  lemma {:induction false} ReadOn(m: seq<Byte>, inSize: int, offs: nat, rest: seq<Field>, gs: seq<Field>, k: nat,
                                  hs: seq<Field>)
    requires offs <= inSize <= |m| && IsInt(inSize) && k + |rest| == |gs| == |hs|
    requires ReadsAs(m, inSize, offs, rest, gs, k) && hs[k..] == gs[k..]
    ensures ReadFrom(m, inSize, Outcome(offs, Good, hs), k)
         == Outcome(offs + Widths(rest), Good, LandedTail(rest, hs, k))
    decreases |rest|
  {
    if rest == [] {
      assert LandedTail(rest, hs, k) == hs;
    } else {
      var next, g := offs + Width(rest[0]), Landed(rest[0], gs[k]);
      assert hs[k] == hs[k..][0] == gs[k..][0] == gs[k];
      assert hs[k := g][k + 1..] == hs[k..][1..] == gs[k + 1..];
      StepRead(m, inSize, offs, hs, k, Reading(next, Good, g));
      LandedNext(rest, hs, k);
      ReadOn(m, inSize, next, rest[1..], gs, k + 1, hs[k := g]);
    }
  }

  function AllLanded(fs: seq<Field>, gs: seq<Field>): seq<Field>
    requires SameKinds(fs, gs)
  {
    LandedTail(fs, gs, 0)
  }

  /** ROUND TRIP. A serialised message reads back to its last byte: integers and
      strings as they were sent, vectors laid over what their variables held. */
  lemma RoundTrip(fs: seq<Field>, gs: seq<Field>)
    requires Writable(fs) && SameKinds(fs, gs)
    ensures Deserialise(Serialise(fs), gs) == Outcome(|Serialise(fs)|, Good, AllLanded(fs, gs))
  {
    ReadPadded(fs, gs, []);
    assert Serialise(fs) + [] == Serialise(fs);
  }

  lemma HeaderAt(fs: seq<Field>, pad: seq<Byte>)
    requires Writable(fs)
    ensures
      var m := Serialise(fs) + pad;
      && IntAt(m, 0) == |Serialise(fs)|
      && StandsAt(m, INT_SZ, AllBytes(fs))
  {
    var m := Serialise(fs) + pad;
    LeRoundTrip(INT_SZ + Widths(fs));
    assert m[0..INT_SZ] == Le(INT_SZ + Widths(fs));
  }

  lemma LowBitsKeptIff(n: nat, p: nat)
    requires IsInt(n)
    ensures IntOf(n + p) == n <==> p % 0x1_0000_0000 == 0
  {
  }

  lemma ReadPadded(fs: seq<Field>, gs: seq<Field>, pad: seq<Byte>)
    requires Writable(fs) && SameKinds(fs, gs) && |pad| % 0x1_0000_0000 == 0
    ensures Deserialise(Serialise(fs) + pad, gs) == Outcome(|Serialise(fs)|, Good, AllLanded(fs, gs))
  {
    HeaderAt(fs, pad);
    LowBitsKeptIff(|Serialise(fs)|, |pad|);
    BytesReadAs(Serialise(fs) + pad, |Serialise(fs)|, INT_SZ, fs, gs, 0);
    ReadOn(Serialise(fs) + pad, |Serialise(fs)|, INT_SZ, fs, gs, 0, gs);
  }

  /** The code reserves but never resizes: a vector comes back exactly when its
      variable already had the right size. A default-constructed one stays empty. */
  lemma VectorRestoredIff(sent: seq<int>, held: seq<int>)
    ensures Landed(Vec(sent), Vec(held)) == Vec(sent) <==> |held| == |sent|
    ensures Landed(Vec(sent), Vec([])) == Vec([])
  {
    if |held| == |sent| { assert Overlay(held, sent) == sent; }
  }

  predicate SizesMatch(fs: seq<Field>, gs: seq<Field>)
    requires SameKinds(fs, gs)
  {
    forall i :: 0 <= i < |fs| && fs[i].Vec? ==> |gs[i].vs| == |fs[i].vs|
  }

  lemma LandedWholeIff(fs: seq<Field>, gs: seq<Field>)
    requires SameKinds(fs, gs)
    ensures AllLanded(fs, gs) == fs <==> SizesMatch(fs, gs)
  {
    var r := AllLanded(fs, gs);
    if SizesMatch(fs, gs) {
      forall i | 0 <= i < |fs| ensures r[i] == fs[i] {
        if fs[i].Vec? { VectorRestoredIff(fs[i].vs, gs[i].vs); }
      }
    } else {
      var i :| 0 <= i < |fs| && fs[i].Vec? && |gs[i].vs| != |fs[i].vs|;
      VectorRestoredIff(fs[i].vs, gs[i].vs);
      assert r[i] != fs[i];
    }
  }

  /** So a message comes back whole exactly when every vector variable was already
      as long as the vector sent. */
  lemma RestoredIff(fs: seq<Field>, gs: seq<Field>)
    requires Writable(fs) && SameKinds(fs, gs)
    ensures Deserialise(Serialise(fs), gs).fields == fs <==> SizesMatch(fs, gs)
  {
    RoundTrip(fs, gs);
    LandedWholeIff(fs, gs);
  }

  /** DAMAGE. A message cut short is refused with no field touched; one with bytes
      added is refused likewise unless their number is a multiple of 2^32, and
      then it reads as if they were not there. */
  lemma CutIsRefused(fs: seq<Field>, gs: seq<Field>, k: nat)
    requires Writable(fs) && k < |Serialise(fs)|
    ensures Deserialise(Serialise(fs)[..k], gs) == Outcome(0, Bad, gs)
  {
    var m := Serialise(fs)[..k];
    if k >= INT_SZ {
      LeRoundTrip(INT_SZ + Widths(fs));
      assert m[0..INT_SZ] == Le(INT_SZ + Widths(fs));
    }
  }

  lemma PaddedIsRefusedIff(fs: seq<Field>, gs: seq<Field>, pad: seq<Byte>)
    requires Writable(fs) && SameKinds(fs, gs)
    ensures Deserialise(Serialise(fs) + pad, gs) == Outcome(0, Bad, gs) <==> |pad| % 0x1_0000_0000 != 0
    ensures |pad| % 0x1_0000_0000 == 0 ==>
              Deserialise(Serialise(fs) + pad, gs) == Deserialise(Serialise(fs), gs)
  {
    HeaderAt(fs, pad);
    LowBitsKeptIff(|Serialise(fs)|, |pad|);
    if |pad| % 0x1_0000_0000 == 0 {
      ReadPadded(fs, gs, pad);
      RoundTrip(fs, gs);
    }
  }

  /** ANY BYTES. Whatever the message, reading never leaves it, and the fields after
      the first that could not be read are those the caller had. */
  lemma {:induction false} UntouchedAfterFailure(m: seq<Byte>, inSize: int, o: Outcome, k: nat) returns (j: nat)
    requires 0 <= o.offs <= inSize <= |m| && IsInt(inSize) && o.status == Good && k <= |o.fields|
    ensures
      var r := ReadFrom(m, inSize, o, k);
      && k <= j <= |o.fields|
      && (r.status == Good <==> j == |o.fields|)
      && (r.status == Good || r.status == Bad ==> r.offs <= inSize)
      && (forall i :: j <= i < |o.fields| ==> r.fields[i] == o.fields[i])
    decreases |o.fields| - k
  {
    j := k;
    if k < |o.fields| {
      var r := ReadField(m, inSize, o.offs, o.fields[k]);
      if r.status == Good {
        j := UntouchedAfterFailure(m, inSize, Outcome(r.offs, r.status, o.fields[k := r.f]), k + 1);
      }
    }
  }

  /** The j-th field alone decides what a longer read does first: reading only a
      prefix of the variables gives that prefix of the full read. */
  lemma {:induction false} PrefixAgrees(m: seq<Byte>, inSize: int, o: Outcome, p: nat, k: nat)
    requires 0 <= o.offs <= inSize <= |m| && IsInt(inSize) && o.status == Good
    requires k <= p <= |o.fields|
    ensures
      var short := ReadFrom(m, inSize, Outcome(o.offs, Good, o.fields[..p]), k);
      var full := ReadFrom(m, inSize, o, k);
      && short.fields == full.fields[..p]
      && (full.status == Good ==> short.status == Good)
    decreases p - k
  {
    if k < p {
      var r := ReadField(m, inSize, o.offs, o.fields[k]);
      assert o.fields[..p][k := r.f] == o.fields[k := r.f][..p];
      if r.status == Good {
        PrefixAgrees(m, inSize, Outcome(r.offs, r.status, o.fields[k := r.f]), p, k + 1);
      }
    }
  }

  lemma PrefixReader(m: seq<Byte>, fields: seq<Field>, p: nat)
    requires p <= |fields|
    ensures Deserialise(m, fields[..p]).fields == Deserialise(m, fields).fields[..p]
    ensures Deserialise(m, fields).status == Good ==> Deserialise(m, fields[..p]).status == Good
  {
    var inSize := IntOf(|m|);
    if inSize >= INT_SZ && inSize == IntAt(m, 0) {
      PrefixAgrees(m, inSize, Outcome(INT_SZ, Good, fields), p, 0);
    }
  }
}
