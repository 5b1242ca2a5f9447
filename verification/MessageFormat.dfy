/**
 The wire format of core/base/messages.cpp: a total length, then the fields;
 strings and integer vectors carry their own length. Integers are 32-bit two's
 complement, little-endian as on the machines the code is built for.
 */
module MessageFormat {
  import opened Basics

  type Byte = x: int | 0 <= x < 256

  const INT_SZ := 4

  function Le(v: int): (b: seq<Byte>)
    requires IsInt(v)
    ensures |b| == INT_SZ
  {
    var u := if v < 0 then v + 0x1_0000_0000 else v;
    [u % 256, u / 256 % 256, u / 65536 % 256, u / 16777216]
  }

  function UnLe(b: seq<Byte>): (v: int)
    requires |b| == INT_SZ
    ensures IsInt(v)
  {
    var b0: int, b1: int, b2: int, b3: int := b[0], b[1], b[2], b[3];
    var u := b0 + 256 * b1 + 65536 * b2 + 16777216 * b3;
    if u < 0x8000_0000 then u else u - 0x1_0000_0000
  }

  lemma LeRoundTrip(v: int)
    requires IsInt(v)
    ensures UnLe(Le(v)) == v
  {
    var u := if v < 0 then v + 0x1_0000_0000 else v;
    assert u / 65536 == u / 256 / 256;
    assert u / 16777216 == u / 256 / 256 / 256;
  }

  /** A field and, for the reader, the variable it is read into. */
  datatype Field = Num(v: int) | Str(s: seq<Byte>) | Vec(vs: seq<int>)

  predicate SameKind(a: Field, b: Field) {
    (a.Num? <==> b.Num?) && (a.Str? <==> b.Str?) && (a.Vec? <==> b.Vec?)
  }

  predicate SameKinds(fs: seq<Field>, gs: seq<Field>) {
    |fs| == |gs| && forall i :: 0 <= i < |fs| ==> SameKind(fs[i], gs[i])
  }

  function Width(f: Field): nat {
    match f
    case Num(_) => INT_SZ
    case Str(s) => INT_SZ + |s|
    case Vec(vs) => INT_SZ + |vs| * 4
  }

  function Widths(fs: seq<Field>): nat {
    if fs == [] then 0 else Width(fs[0]) + Widths(fs[1..])
  }

  predicate FieldOk(f: Field) {
    match f
    case Num(v) => IsInt(v)
    case Str(_) => true
    case Vec(vs) => forall i :: 0 <= i < |vs| ==> IsInt(vs[i])
  }

  /** The values are C++ ints and the whole message has a size that is one. */
  predicate Writable(fs: seq<Field>) {
    (forall i :: 0 <= i < |fs| ==> FieldOk(fs[i])) && IsInt(INT_SZ + Widths(fs))
  }

  function LeAll(vs: seq<int>): (b: seq<Byte>)
    requires forall i :: 0 <= i < |vs| ==> IsInt(vs[i])
    ensures |b| == |vs| * 4
  {
    if vs == [] then [] else Le(vs[0]) + LeAll(vs[1..])
  }

  function FieldBytes(f: Field): (b: seq<Byte>)
    requires FieldOk(f) && IsInt(Width(f))
    ensures |b| == Width(f)
  {
    match f
    case Num(v) => Le(v)
    case Str(s) => Le(|s|) + s
    case Vec(vs) => Le(|vs|) + LeAll(vs)
  }

  function AllBytes(fs: seq<Field>): (b: seq<Byte>)
    requires Writable(fs)
    ensures |b| == Widths(fs)
  {
    if fs == [] then [] else FieldBytes(fs[0]) + AllBytes(fs[1..])
  }

  /** The message that carries these fields. */
  function Serialise(fs: seq<Field>): (m: seq<Byte>)
    requires Writable(fs)
    ensures |m| == INT_SZ + Widths(fs)
  {
    Le(INT_SZ + Widths(fs)) + AllBytes(fs)
  }

  // ----------------------------------------------------------------- reading

  /** Good and Bad are ok_; Threw is std::length_error from a negative length;
      Undefined is where the offset arithmetic would leave int. */
  datatype Status = Good | Bad | Threw | Undefined

  datatype Reading = Reading(offs: int, status: Status, f: Field)

  function IntAt(m: seq<Byte>, offs: int): int
    requires 0 <= offs && offs + INT_SZ <= |m|
  {
    UnLe(m[offs..offs + INT_SZ])
  }

  function IntsAt(m: seq<Byte>, offs: int, n: nat): seq<int>
    requires 0 <= offs && offs + n * 4 <= |m|
    decreases n
  {
    if n == 0 then [] else [IntAt(m, offs)] + IntsAt(m, offs + INT_SZ, n - 1)
  }

  /** memcpy into a vector that was only reserved: what it held is overwritten as
      far as both reach, and its size stays what it was. */
  function Overlay(held: seq<int>, vs: seq<int>): seq<int> {
    seq(|held|, i requires 0 <= i < |held| => if i < |vs| then vs[i] else held[i])
  }

  /** readField, from a good reader at offs, into f. */
  function ReadField(m: seq<Byte>, inSize: int, offs: int, f: Field): (r: Reading)
    requires 0 <= offs <= inSize <= |m| && IsInt(inSize)
    ensures r.status == Good || r.status == Bad ==> offs <= r.offs <= inSize
    ensures SameKind(f, r.f)
    ensures r.status != Good ==> r.f == f
  {
    if !IsInt(offs + INT_SZ) then Reading(offs, Undefined, f)
    else if offs + INT_SZ > inSize then Reading(offs, Bad, f)
    else
      var n, next := IntAt(m, offs), offs + INT_SZ;
      match f
      case Num(_) => Reading(next, Good, Num(n))
      case Str(_) =>
        if !IsInt(next + n) then Reading(next, Undefined, f)
        else if next + n > inSize then Reading(next, Bad, f)
        else if n < 0 then Reading(next, Threw, f)
        else Reading(next + n, Good, Str(m[next..next + n]))
      case Vec(held) =>
        if !IsInt(n * 4) || !IsInt(next + n * 4) then Reading(next, Undefined, f)
        else if next + n * 4 > inSize then Reading(next, Bad, f)
        else if n < 0 then Reading(next, Threw, f)
        else Reading(next + n * 4, Good, Vec(Overlay(held, IntsAt(m, next, n))))
  }

  datatype Outcome = Outcome(offs: int, status: Status, fields: seq<Field>)

  /** readField over the fields from k on; none is touched once the status is not Good. */
  function ReadFrom(m: seq<Byte>, inSize: int, o: Outcome, k: nat): (r: Outcome)
    requires 0 <= o.offs <= inSize <= |m| && IsInt(inSize) && o.status == Good && k <= |o.fields|
    ensures SameKinds(o.fields, r.fields)
    ensures r.status == Good || r.status == Bad ==> o.offs <= r.offs <= inSize
    ensures forall i :: 0 <= i < k ==> r.fields[i] == o.fields[i]
    decreases |o.fields| - k
  {
    if k == |o.fields| then o
    else
      var r := ReadField(m, inSize, o.offs, o.fields[k]);
      var o' := Outcome(r.offs, r.status, o.fields[k := r.f]);
      if r.status == Good then ReadFrom(m, inSize, o', k + 1) else o'
  }

  /** A whole SerialReader: the header must equal the message's size as an int. */
  function Deserialise(m: seq<Byte>, fields: seq<Field>): (r: Outcome)
    ensures SameKinds(fields, r.fields)
  {
    var inSize := IntOf(|m|);
    if inSize < INT_SZ || inSize != IntAt(m, 0) then Outcome(0, Bad, fields)
    else ReadFrom(m, inSize, Outcome(INT_SZ, Good, fields), 0)
  }
}
