/**
 The classes of core/base/messages.cpp: the writer that fills its buffer field
 by field, the reader that walks a message with an offset, and the messages
 that use them.
 */
module Messages {
  import opened Basics
  import opened MessageFormat
  import opened MessageTheorems

  lemma Regroup(a: seq<Byte>, b: seq<Byte>, c: seq<Byte>)
    ensures a + (b + c) == (a + b) + c
  {
  }

  class SerialWriter {
    var outSize: int
    var offs: int
    var out: array<Byte>

    /** Sizes the buffer, then writes the header and the fields: the buffer is
        filled to its end and no further. */
    constructor (fields: seq<Field>)
      requires Writable(fields)
      ensures fresh(out) && out[..] == Serialise(fields)
      ensures offs == outSize == out.Length
    {
      var size := FieldSizes(fields);
      outSize := size + INT_SZ;
      out := new Byte[size + INT_SZ];
      offs := 0;
      new;
      WriteBytes(Le(outSize));
      assert out[..offs] == Le(INT_SZ + Widths(fields));
      WriteFields(fields);
      assert offs == out.Length && out[..offs] == out[..];
    }

    static method FieldSizes(fields: seq<Field>) returns (size: nat)
      ensures size == Widths(fields)
    {
      size := 0;
      var k := 0;
      assert fields[0..] == fields;
      while k < |fields|
        invariant 0 <= k <= |fields|
        invariant size + Widths(fields[k..]) == Widths(fields)
      {
        WidthsSplit(fields, k);
        size := size + Width(fields[k]);
        k := k + 1;
      }
    }

    method WriteFields(fields: seq<Field>)
      requires Writable(fields) && 0 <= offs && offs + Widths(fields) <= out.Length
      modifies this`offs, out
      ensures offs == old(offs) + Widths(fields)
      ensures out[..offs] == old(out[..offs]) + AllBytes(fields)
    {
      ghost var target := out[..offs] + AllBytes(fields);
      var k := 0;
      assert fields[0..] == fields;
      while k < |fields|
        invariant 0 <= k <= |fields| && Writable(fields[k..])
        invariant 0 <= offs && offs + Widths(fields[k..]) == old(offs) + Widths(fields)
        invariant out[..offs] + AllBytes(fields[k..]) == target
      {
        TailWritable(fields, k);
        WidthsSplit(fields, k);
        ghost var before, rest := out[..offs], AllBytes(fields[k + 1..]);
        Regroup(before, FieldBytes(fields[k]), rest);
        WriteField(fields[k]);
        k := k + 1;
      }
      assert out[..offs] + [] == out[..offs];
    }

    method WriteBytes(b: seq<Byte>)
      requires 0 <= offs && offs + |b| <= out.Length
      modifies this`offs, out
      ensures offs == old(offs) + |b|
      ensures out[..offs] == old(out[..offs]) + b
    {
      var start := offs;
      forall i | 0 <= i < |b| {
        out[start + i] := b[i];
      }
      offs := offs + |b|;
    }

    /** writeField, whichever of its three overloads fits. */
    method WriteField(f: Field)
      requires FieldOk(f) && IsInt(Width(f))
      requires 0 <= offs && offs + Width(f) <= out.Length
      modifies this`offs, out
      ensures offs == old(offs) + Width(f)
      ensures out[..offs] == old(out[..offs]) + FieldBytes(f)
    {
      match f {
        case Num(v) => WriteBytes(Le(v));
        case Str(s) =>
          Regroup(out[..offs], Le(|s|), s);
          WriteBytes(Le(|s|));
          WriteBytes(s);
        case Vec(vs) =>
          Regroup(out[..offs], Le(|vs|), LeAll(vs));
          WriteBytes(Le(|vs|));
          WriteBytes(LeAll(vs));
      }
    }
  }

  class SerialReader {
    const inp: seq<Byte>
    var inSize: int
    var offs: int
    var status: Status

    ghost predicate Valid()
      reads this
    {
      && IsInt(inSize)
      && (status == Good || status == Bad ==> 0 <= offs)
      && (status == Good ==> offs <= inSize <= |inp|)
    }

    constructor (m: seq<Byte>)
      ensures Valid() && inp == m && (status == Good || status == Bad)
      ensures inSize == IntOf(|m|)
      ensures status == Good <==> inSize >= INT_SZ && inSize == IntAt(m, 0)
      ensures offs == if status == Good then INT_SZ else 0
    {
      inp := m;
      var size := IntOf(|m|);
      inSize := size;
      if size < INT_SZ || size != IntAt(m, 0) {
        status, offs := Bad, 0;
      } else {
        status, offs := Good, INT_SZ;
      }
    }

    method CheckFieldSize(fieldSize: int) returns (ok: bool)
      requires Valid() && status == Good
      modifies this`status
      ensures status == (if !IsInt(offs + fieldSize) then Undefined
                         else if offs + fieldSize > inSize then Bad else Good)
      ensures ok == (status == Good)
    {
      if !IsInt(offs + fieldSize) {
        status := Undefined;
      } else if offs + fieldSize > inSize {
        status := Bad;
      }
      ok := status == Good;
    }

    /** readField: f is the caller's variable, g what it holds afterwards. */
    method Read(f: Field) returns (g: Field)
      requires Valid()
      modifies this`offs, this`status
      ensures Valid() && inSize == old(inSize)
      ensures old(status) != Good ==> g == f && status == old(status) && offs == old(offs)
      ensures old(status) == Good ==> Reading(offs, status, g) == ReadField(inp, inSize, old(offs), f)
    {
      g := f;
      if status != Good {
        return;
      }
      var ok := CheckFieldSize(INT_SZ);
      if !ok {
        return;
      }
      var n := IntAt(inp, offs);
      offs := offs + INT_SZ;
      match f {
        case Num(_) => g := Num(n);
        case Str(_) =>
          ok := CheckFieldSize(n);
          if !ok {
            return;
          }
          if n < 0 {
            status := Threw;
            return;
          }
          g := Str(inp[offs..offs + n]);
          offs := offs + n;
        case Vec(held) =>
          if !IsInt(n * 4) {
            status := Undefined;
            return;
          }
          ok := CheckFieldSize(n * 4);
          if !ok {
            return;
          }
          if n < 0 {
            status := Threw;
            return;
          }
          g := Vec(Overlay(held, IntsAt(inp, offs, n)));
          offs := offs + n * 4;
      }
    }
  }

  /** SerialReader(m, fields...): the variables after the reading. */
  method ReadMessage(m: seq<Byte>, fields: seq<Field>) returns (status: Status, read: seq<Field>)
    ensures var r := Deserialise(m, fields);
            status == r.status && read == r.fields
    ensures SameKinds(fields, read)
  {
    var r := new SerialReader(m);
    read := ReadFields(r, fields, 0);
    status := r.status;
  }

  /** The readField calls for the variables from k on. */
  method ReadFields(r: SerialReader, fields: seq<Field>, k: nat) returns (read: seq<Field>)
    requires r.Valid() && k <= |fields|
    modifies r
    ensures r.Valid() && r.inSize == old(r.inSize)
    ensures old(r.status) == Good ==>
      Outcome(r.offs, r.status, read) == ReadFrom(r.inp, r.inSize, Outcome(old(r.offs), Good, fields), k)
    ensures old(r.status) != Good ==> r.status == old(r.status) && r.offs == old(r.offs) && read == fields
    decreases |fields| - k
  {
    read := fields;
    if k < |fields| {
      var g := r.Read(fields[k]);
      if old(r.status) == Good {
        StepRead(r.inp, r.inSize, old(r.offs), fields, k, Reading(r.offs, r.status, g));
      }
      read := ReadFields(r, fields[k := g], k + 1);
    }
  }

  // ----------------------------------------------------------------- messages

  const UNDEFINED := 0
  const NEW_TASK := 1
  const TASK_PROGRESS := 10
  const INTERN_ERROR := 24

  method GetMessType(m: seq<Byte>) returns (mtype: int)
    ensures var r := Deserialise(m, [Num(0)]);
            mtype == if r.status == Good then r.fields[0].v else 0
  {
    var status, read := ReadMessage(m, [Num(0)]);
    mtype := if status == Good then read[0].v else UNDEFINED;
  }

  /** Whether a reader's constructor returns; a length_error leaves it, and the caller with it. */
  predicate Returns(status: Status) { status == Good || status == Bad }

  /** No value when the reading throws. */
  method GetConnectPnt(m: seq<Byte>) returns (connectPnt: Option<seq<Byte>>)
    ensures var r := Deserialise(m, [Num(0), Str([])]);
            connectPnt == if Returns(r.status) then Some(r.fields[1].s) else None
  {
    var status, read := ReadMessage(m, [Num(0), Str([])]);
    connectPnt := if Returns(status) then Some(read[1].s) else None;
  }

  /** A message whose string has length -1: the type is read, then the reading throws. */
  lemma NegativeLengthThrows()
    ensures Deserialise(Le(12) + Le(5) + Le(-1), [Num(0), Str([])]) == Outcome(12, Threw, [Num(5), Str([])])
  {
    var m := Le(12) + Le(5) + Le(-1);
    LeRoundTrip(12);
    LeRoundTrip(5);
    LeRoundTrip(-1);
    assert m[0..4] == Le(12) && m[4..8] == Le(5) && m[8..12] == Le(-1);
    TwoFields(m, []);
  }

  /** Every message starts with its type and connection point. Whenever such a
      message decodes in full, the two prefix readers agree with it. */
  lemma PrefixReadersAgree(m: seq<Byte>, fields: seq<Field>)
    requires |fields| >= 2 && fields[0] == Num(0) && fields[1].Str?
    requires Deserialise(m, fields).status == Good
    ensures Deserialise(m, [Num(0)]).status == Good
    ensures Deserialise(m, [Num(0)]).fields[0] == Deserialise(m, fields).fields[0]
    ensures Deserialise(m, [Num(0), Str([])]).fields[1] == Deserialise(m, fields).fields[1]
  {
    PrefixReader(m, fields, 1);
    assert fields[..1] == [Num(0)];
    PrefixReader(m, fields, 2);
    assert fields[..2] == [Num(0), fields[1]];
    StartIsForgotten(m, fields[1].s);
  }

  lemma StartIsForgotten(m: seq<Byte>, s: seq<Byte>)
    requires Deserialise(m, [Num(0), Str(s)]).status == Good
    ensures Deserialise(m, [Num(0), Str([])]) == Deserialise(m, [Num(0), Str(s)])
  {
    TwoFields(m, s);
    TwoFields(m, []);
  }

  lemma TwoFields(m: seq<Byte>, s: seq<Byte>)
    ensures
      var inSize := IntOf(|m|);
      var r := Deserialise(m, [Num(0), Str(s)]);
      if inSize < INT_SZ || inSize != IntAt(m, 0) then r.status == Bad
      else
        var a := ReadField(m, inSize, INT_SZ, Num(0));
        if a.status != Good then r.status == a.status
        else
          var b := ReadField(m, inSize, a.offs, Str(s));
          r == Outcome(b.offs, b.status, [a.f, b.f])
  {
    var inSize := IntOf(|m|);
    if inSize >= INT_SZ && inSize == IntAt(m, 0) {
      var a := ReadField(m, inSize, INT_SZ, Num(0));
      assert [Num(0), Str(s)][0 := a.f] == [a.f, Str(s)];
      if a.status == Good {
        var b := ReadField(m, inSize, a.offs, Str(s));
        assert [a.f, Str(s)][1 := b.f] == [a.f, b.f];
        assert ReadFrom(m, inSize, Outcome(a.offs, Good, [a.f, Str(s)]), 1) == Outcome(b.offs, b.status, [a.f, b.f]);
      }
    }
  }

  class NewTask {
    var connectPnt: seq<Byte>
    var params: seq<Byte>
    var scriptPath: seq<Byte>
    var resultPath: seq<Byte>
    var taskId: int
    var averDurationSec: int
    var maxDurationSec: int

    constructor (connPnt: seq<Byte>)
      ensures Fields(0) == [Num(0), Str(connPnt), Str([]), Str([]), Str([]), Num(0), Num(0), Num(0)]
    {
      connectPnt, params, scriptPath, resultPath := connPnt, [], [], [];
      taskId, averDurationSec, maxDurationSec := 0, 0, 0;
    }

    function Fields(mtype: int): seq<Field>
      reads this
    {
      [Num(mtype), Str(connectPnt), Str(params), Str(scriptPath), Str(resultPath),
       Num(taskId), Num(averDurationSec), Num(maxDurationSec)]
    }

    method Serialn() returns (out: seq<Byte>)
      requires Writable(Fields(NEW_TASK))
      ensures out == Serialise(Fields(NEW_TASK))
      ensures out == Serialise([Num(1), Str(connectPnt), Str(params), Str(scriptPath), Str(resultPath),
                                Num(taskId), Num(averDurationSec), Num(maxDurationSec)])
      ensures |out| >= 8 && Unsigned(out, 0) == |out|
      ensures out[4..8] == [1, 0, 0, 0]
    {
      MessageLayout(Fields(NEW_TASK));
      var w := new SerialWriter(Fields(NEW_TASK));
      out := w.out[..];
    }

    method Deserialn(m: seq<Byte>) returns (status: Status)
      modifies this
      ensures status == Deserialise(m, old(Fields(0))).status
      ensures Fields(0)[1..] == Deserialise(m, old(Fields(0))).fields[1..]
    {
      var read: seq<Field>;
      status, read := ReadMessage(m, Fields(0));
      assert SameKind(old(Fields(0))[1], read[1]) && SameKind(old(Fields(0))[2], read[2]);
      assert SameKind(old(Fields(0))[3], read[3]) && SameKind(old(Fields(0))[4], read[4]);
      assert SameKind(old(Fields(0))[5], read[5]) && SameKind(old(Fields(0))[6], read[6]);
      assert SameKind(old(Fields(0))[7], read[7]);
      connectPnt, params, scriptPath, resultPath := read[1].s, read[2].s, read[3].s, read[4].s;
      taskId, averDurationSec, maxDurationSec := read[5].v, read[6].v, read[7].v;
    }
  }

  class TaskStatus {
    var mtype: int
    var connectPnt: seq<Byte>
    var taskId: int
    var activeTaskCount: int
    var loadCPU: int

    constructor (taskId: int, mtype: int)
      ensures Fields(this.mtype) == [Num(mtype), Str([]), Num(taskId), Num(0), Num(0)]
    {
      this.mtype, this.taskId := mtype, taskId;
      connectPnt, activeTaskCount, loadCPU := [], 0, 0;
    }

    function Fields(t: int): seq<Field>
      reads this
    {
      [Num(t), Str(connectPnt), Num(taskId), Num(activeTaskCount), Num(loadCPU)]
    }

    method Serialn() returns (out: seq<Byte>)
      requires Writable(Fields(mtype))
      ensures out == Serialise(Fields(mtype))
      ensures out == Serialise([Num(mtype), Str(connectPnt), Num(taskId), Num(activeTaskCount), Num(loadCPU)])
      ensures |out| >= 8 && Unsigned(out, 0) == |out|
      ensures Unsigned(out, 4) == if mtype < 0 then mtype + 0x1_0000_0000 else mtype
    {
      MessageLayout(Fields(mtype));
      var w := new SerialWriter(Fields(mtype));
      out := w.out[..];
    }

    /** mtype is assigned even when the reading fails, and is then UNDEFINED or what
        was read of it; but not when the reading throws. */
    method Deserialn(m: seq<Byte>) returns (status: Status)
      modifies this
      ensures
        var r := Deserialise(m, old(Fields(0)));
        && status == r.status && Fields(0)[1..] == r.fields[1..]
        && mtype == if Returns(status) then r.fields[0].v else old(mtype)
    {
      var read: seq<Field>;
      status, read := ReadMessage(m, Fields(0));
      connectPnt, taskId, activeTaskCount, loadCPU := read[1].s, read[2].v, read[3].v, read[4].v;
      if Returns(status) {
        mtype := read[0].v;
      }
    }
  }

  class TaskProgress {
    var connectPnt: seq<Byte>
    var taskIds: seq<int>
    var taskProgress: seq<int>
    var activeTaskCount: int
    var loadCPU: int

    constructor (taskIds: seq<int>, taskProgress: seq<int>)
      ensures Fields(0) == [Num(0), Str([]), Vec(taskIds), Vec(taskProgress), Num(0), Num(0)]
    {
      this.taskIds, this.taskProgress := taskIds, taskProgress;
      connectPnt, activeTaskCount, loadCPU := [], 0, 0;
    }

    function Fields(mtype: int): seq<Field>
      reads this
    {
      [Num(mtype), Str(connectPnt), Vec(taskIds), Vec(taskProgress), Num(activeTaskCount), Num(loadCPU)]
    }

    method Serialn() returns (out: seq<Byte>)
      requires Writable(Fields(TASK_PROGRESS))
      ensures out == Serialise(Fields(TASK_PROGRESS))
      ensures out == Serialise([Num(10), Str(connectPnt), Vec(taskIds), Vec(taskProgress),
                                Num(activeTaskCount), Num(loadCPU)])
      ensures |out| >= 8 && Unsigned(out, 0) == |out|
      ensures out[4..8] == [10, 0, 0, 0]
    {
      MessageLayout(Fields(TASK_PROGRESS));
      var w := new SerialWriter(Fields(TASK_PROGRESS));
      out := w.out[..];
    }

    method Deserialn(m: seq<Byte>) returns (status: Status)
      modifies this
      ensures status == Deserialise(m, old(Fields(0))).status
      ensures Fields(0)[1..] == Deserialise(m, old(Fields(0))).fields[1..]
    {
      var read: seq<Field>;
      status, read := ReadMessage(m, Fields(0));
      connectPnt, taskIds, taskProgress := read[1].s, read[2].vs, read[3].vs;
      activeTaskCount, loadCPU := read[4].v, read[5].v;
    }
  }

  class InfoMess {
    var mtype: int
    var connectPnt: seq<Byte>

    constructor (mtype: int, connPnt: seq<Byte>)
      ensures Fields(this.mtype) == [Num(mtype), Str(connPnt)]
    {
      this.mtype, connectPnt := mtype, connPnt;
    }

    function Fields(t: int): seq<Field>
      reads this
    {
      [Num(t), Str(connectPnt)]
    }

    method Serialn() returns (out: seq<Byte>)
      requires Writable(Fields(mtype))
      ensures out == Serialise(Fields(mtype))
      ensures out == Serialise([Num(mtype), Str(connectPnt)])
      ensures |out| >= 8 && Unsigned(out, 0) == |out|
      ensures Unsigned(out, 4) == if mtype < 0 then mtype + 0x1_0000_0000 else mtype
    {
      MessageLayout(Fields(mtype));
      var w := new SerialWriter(Fields(mtype));
      out := w.out[..];
    }

    method Deserialn(m: seq<Byte>) returns (status: Status)
      modifies this
      ensures
        var r := Deserialise(m, old(Fields(0)));
        && status == r.status && Fields(0)[1..] == r.fields[1..]
        && mtype == if Returns(status) then r.fields[0].v else old(mtype)
    {
      var read: seq<Field>;
      status, read := ReadMessage(m, Fields(0));
      connectPnt := read[1].s;
      if Returns(status) {
        mtype := read[0].v;
      }
    }
  }

  class InternError {
    var connectPnt: seq<Byte>
    var message: seq<Byte>

    constructor (connPnt: seq<Byte>, mess: seq<Byte>)
      ensures Fields(0) == [Num(0), Str(connPnt), Str(mess)]
    {
      connectPnt, message := connPnt, mess;
    }

    function Fields(mtype: int): seq<Field>
      reads this
    {
      [Num(mtype), Str(connectPnt), Str(message)]
    }

    method Serialn() returns (out: seq<Byte>)
      requires Writable(Fields(INTERN_ERROR))
      ensures out == Serialise(Fields(INTERN_ERROR))
      ensures out == Serialise([Num(24), Str(connectPnt), Str(message)])
      ensures |out| >= 8 && Unsigned(out, 0) == |out|
      ensures out[4..8] == [24, 0, 0, 0]
    {
      MessageLayout(Fields(INTERN_ERROR));
      var w := new SerialWriter(Fields(INTERN_ERROR));
      out := w.out[..];
    }

    method Deserialn(m: seq<Byte>) returns (status: Status)
      modifies this
      ensures status == Deserialise(m, old(Fields(0))).status
      ensures Fields(0)[1..] == Deserialise(m, old(Fields(0))).fields[1..]
    {
      var read: seq<Field>;
      status, read := ReadMessage(m, Fields(0));
      connectPnt, message := read[1].s, read[2].s;
    }
  }

  // ------------------------------------------------- sending and receiving them

  method SendNewTask(a: NewTask, b: NewTask) returns (status: Status)
    requires a != b && Writable(a.Fields(NEW_TASK))
    modifies b
    ensures status == Good && b.Fields(NEW_TASK) == a.Fields(NEW_TASK)
  {
    var m := a.Serialn();
    RoundTrip(a.Fields(NEW_TASK), b.Fields(0));
    status := b.Deserialn(m);
    assert b.Fields(NEW_TASK)[1..] == b.Fields(0)[1..] == a.Fields(NEW_TASK)[1..];
  }

  method SendTaskStatus(a: TaskStatus, b: TaskStatus) returns (status: Status)
    requires a != b && Writable(a.Fields(a.mtype))
    modifies b
    ensures status == Good && b.mtype == a.mtype && b.Fields(b.mtype) == a.Fields(a.mtype)
  {
    var m := a.Serialn();
    RoundTrip(a.Fields(a.mtype), b.Fields(0));
    status := b.Deserialn(m);
    assert b.Fields(a.mtype)[1..] == b.Fields(0)[1..] == a.Fields(a.mtype)[1..];
  }

  /** The scalars after the two vectors arrive; each vector arrives exactly when the
      receiver's was already as long. */
  method SendTaskProgress(a: TaskProgress, b: TaskProgress) returns (status: Status)
    requires a != b && Writable(a.Fields(TASK_PROGRESS))
    modifies b
    ensures status == Good
    ensures b.connectPnt == a.connectPnt && b.activeTaskCount == a.activeTaskCount && b.loadCPU == a.loadCPU
    ensures b.taskIds == Overlay(old(b.taskIds), a.taskIds)
    ensures b.taskProgress == Overlay(old(b.taskProgress), a.taskProgress)
    ensures b.taskIds == a.taskIds <==> |old(b.taskIds)| == |a.taskIds|
    ensures b.taskProgress == a.taskProgress <==> |old(b.taskProgress)| == |a.taskProgress|
  {
    var m := a.Serialn();
    RoundTrip(a.Fields(TASK_PROGRESS), b.Fields(0));
    VectorRestoredIff(a.taskIds, b.taskIds);
    VectorRestoredIff(a.taskProgress, b.taskProgress);
    ghost var r := Deserialise(m, b.Fields(0)).fields;
    status := b.Deserialn(m);
    assert forall i :: 0 <= i < 5 ==> b.Fields(0)[1..][i] == r[1..][i];
    assert b.Fields(0)[1] == r[1] && b.Fields(0)[2] == r[2] && b.Fields(0)[3] == r[3]
        && b.Fields(0)[4] == r[4] && b.Fields(0)[5] == r[5];
  }

  method SendInfoMess(a: InfoMess, b: InfoMess) returns (status: Status)
    requires a != b && Writable(a.Fields(a.mtype))
    modifies b
    ensures status == Good && b.mtype == a.mtype && b.connectPnt == a.connectPnt
  {
    var m := a.Serialn();
    RoundTrip(a.Fields(a.mtype), b.Fields(0));
    status := b.Deserialn(m);
    assert b.Fields(0)[1..][0] == a.Fields(a.mtype)[1..][0];
  }

  method SendInternError(a: InternError, b: InternError) returns (status: Status)
    requires a != b && Writable(a.Fields(INTERN_ERROR))
    modifies b
    ensures status == Good && b.Fields(INTERN_ERROR) == a.Fields(INTERN_ERROR)
  {
    var m := a.Serialn();
    RoundTrip(a.Fields(INTERN_ERROR), b.Fields(0));
    status := b.Deserialn(m);
    assert b.Fields(INTERN_ERROR)[1..] == b.Fields(0)[1..] == a.Fields(INTERN_ERROR)[1..];
  }
}
