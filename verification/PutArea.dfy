/**
 The sending half of core/3rdparty/asio/basic_socket_streambuf.hpp: characters
 collected in a put area and pushed through a non-blocking socket that may
 take only part of them. Each try of the send loop has one of the outcomes
 below, in the order a script gives them.
 */
module PutArea {
  import opened Basics

  const BUFFER_SIZE := 512

  /** Expired: past the expiry time. Sent(n): the socket took n + 1 characters, or
      all if fewer were left. Blocked: would-block, then the poll came good.
      Failed: any other error, or the poll failed. */
  datatype Outcome = Expired | Sent(n: nat) | Blocked | Failed

  type Script = seq<Outcome>

  /** How many characters the socket would take, all tries together, before one fails for good. */
  function Offered(script: Script): nat {
    if script == [] then 0
    else
      match script[0]
      case Expired => 0
      case Failed => 0
      case Blocked => Offered(script[1..])
      case Sent(n) => n + 1 + Offered(script[1..])
  }

  /** The part of out that gets through. */
  function Through(out: seq<char>, script: Script): (t: seq<char>)
    ensures |t| == Min(|out|, Offered(script)) && t <= out
    ensures |out| <= Offered(script) ==> t == out
  {
    out[..Min(|out|, Offered(script))]
  }

  /** The first n tries are would-blocks after which the poll came good. */
  predicate BlockedFor(script: Script, n: nat) {
    n <= |script| && forall i :: 0 <= i < n ==> script[i] == Blocked
  }

  predicate NeverFails(script: Script) {
    forall i :: 0 <= i < |script| ==> script[i].Sent? || script[i].Blocked?
  }

  function Sends(script: Script): nat {
    if script == [] then 0 else (if script[0].Sent? then 1 else 0) + Sends(script[1..])
  }

  lemma {:induction false} OfferedAfterBlocks(script: Script, n: nat)
    requires BlockedFor(script, n)
    ensures Offered(script) == Offered(script[n..])
  {
    if n > 0 {
      OfferedAfterBlocks(script[1..], n - 1);
      assert script[1..][n - 1..] == script[n..];
    } else {
      assert script[0..] == script;
    }
  }

  lemma {:induction false} OfferedAtLeastSends(script: Script)
    requires NeverFails(script)
    ensures Offered(script) >= Sends(script)
  {
    if script != [] { OfferedAtLeastSends(script[1..]); }
  }

  /** What a send of whole comes to, by the tries alone: a would-block is no failure;
      without a failure every try that sends gets at least one character through; a
      failure, or the end, before the first send means that nothing was sent; and one
      right after the first send means that only its characters were. */
  ghost predicate SentByTries(whole: seq<char>, script: Script, ok: bool, part: seq<char>) {
    && (NeverFails(script) && Sends(script) >= |whole| ==> ok && part == whole)
    && (forall n: nat :: BlockedFor(script, n) && Ends(script, n) && whole != [] ==> !ok && part == [])
    && (forall n: nat :: BlockedFor(script, n) && n < |script| && script[n].Sent? ==>
          && (script[n].n + 1 >= |whole| ==> ok && part == whole)
          && (script[n].n + 1 < |whole| && Ends(script, n + 1) ==> !ok && part == whole[..script[n].n + 1]))
  }

  /** Try n fails, or there is none. */
  predicate Ends(script: Script, n: nat) {
    n == |script| || (n < |script| && (script[n].Expired? || script[n].Failed?))
  }

  lemma OfferedFirst(script: Script, n: nat)
    requires BlockedFor(script, n)
    ensures Ends(script, n) ==> Offered(script) == 0
    ensures n < |script| && script[n].Sent? ==>
              && Offered(script) >= script[n].n + 1
              && (Ends(script, n + 1) ==> Offered(script) == script[n].n + 1)
  {
    OfferedAfterBlocks(script, n);
    if n < |script| && script[n].Sent? {
      assert script[n..][1..] == script[n + 1..];
    }
  }

  lemma ThroughIsByTries(whole: seq<char>, script: Script)
    ensures SentByTries(whole, script, |whole| <= Offered(script), Through(whole, script))
  {
    if NeverFails(script) { OfferedAtLeastSends(script); }
    forall n: nat | BlockedFor(script, n) && Ends(script, n) ensures Offered(script) == 0 {
      OfferedFirst(script, n);
    }
    forall n: nat | BlockedFor(script, n) && n < |script| && script[n].Sent?
      ensures Offered(script) >= script[n].n + 1 && (Ends(script, n + 1) ==> Offered(script) == script[n].n + 1)
    {
      OfferedFirst(script, n);
    }
  }

  lemma MoveOver(before: seq<char>, whole: seq<char>, from: nat, n: nat)
    requires from + n <= |whole|
    ensures (before + whole[..from]) + whole[from..][..n] == before + whole[..from + n]
    ensures whole[from..][n..] == whole[from + n..]
  {
  }

  lemma SentIs(before: seq<char>, whole: seq<char>, done: nat, sent: seq<char>, script: Script)
    requires done <= |whole| && sent == before + whole[..done] && done == Min(|whole|, Offered(script))
    ensures |before| <= |sent| && sent[|before|..] == Through(whole, script) && sent == before + Through(whole, script)
  {
  }

  class SocketBuf {
    var putBuffer: seq<char>
    var pptr: nat
    var epptr: nat
    var sent: seq<char>  // what the socket has accepted

    ghost predicate Valid()
      reads this
    {
      pptr <= epptr == |putBuffer|
    }

    ghost function Pending(): (s: seq<char>)
      reads this
      requires Valid()
    {
      putBuffer[..pptr]
    }

    /** init_buffers on a fresh object: buffered mode. */
    constructor ()
      ensures Valid() && sent == [] && Pending() == [] && |putBuffer| == 512
    {
      putBuffer := seq(BUFFER_SIZE, i => '\0');
      pptr, epptr, sent := 0, BUFFER_SIZE, [];
    }

    /** The send loop: each try drops what the socket took from the front of output. */
    method SendAll(whole: seq<char>, script: Script) returns (ok: bool)
      requires Valid()
      modifies this`sent
      ensures Valid()
      ensures ok <==> |whole| <= Offered(script)
      ensures sent == old(sent) + Through(whole, script)
      ensures |old(sent)| <= |sent| && SentByTries(whole, script, ok, sent[|old(sent)|..])
    {
      ThroughIsByTries(whole, script);
      ghost var before, done := sent, 0;
      var output := whole;
      var k := 0;
      while |output| > 0
        invariant k <= |script| && done <= |whole| && output == whole[done..]
        invariant sent == before + whole[..done]
        invariant if output != [] then Offered(script) == done + Offered(script[k..]) else |whole| <= Offered(script)
        decreases |script| - k
      {
        if k == |script| || script[k] == Expired || script[k] == Failed {
          SentIs(before, whole, done, sent, script);
          return false;
        }
        assert script[k..][1..] == script[k + 1..];
        if script[k].Sent? {
          var bytes := Min(script[k].n + 1, |output|);
          MoveOver(before, whole, done, bytes);
          sent := sent + output[..bytes];
          output := output[bytes..];
          done := done + bytes;
        }
        k := k + 1;
      }
      SentIs(before, whole, done, sent, script);
      ok := true;
    }

    /** What overflow has to send before it can store c. */
    ghost function Output(c: Option<char>): seq<char>
      reads this
      requires Valid()
    {
      if putBuffer == [] && c.Some? then [c.value] else Pending()
    }

    /** c is None for eof, which is how sync calls it. Unbuffered mode is an empty put buffer. */
    method Overflow(c: Option<char>, script: Script) returns (ok: bool)
      requires Valid()
      modifies this
      ensures Valid() && |putBuffer| == old(|putBuffer|)
      ensures ok <==> |old(Output(c))| <= Offered(script)
      ensures sent == old(sent) + Through(old(Output(c)), script)
      ensures |old(sent)| <= |sent| && SentByTries(old(Output(c)), script, ok, sent[|old(sent)|..])
      ensures ok ==> Pending() == if c.Some? && putBuffer != [] then [c.value] else []
      ensures ok ==> sent + Pending() == old(sent + Pending()) + (if c.Some? then [c.value] else [])
      ensures !ok ==> putBuffer == old(putBuffer) && Pending() == old(Pending())
    {
      var output: seq<char>;
      if |putBuffer| == 0 {
        if c == None {
          ThroughIsByTries([], script);
          return true;
        }
        output := [c.value];
      } else {
        output := putBuffer[..pptr];
      }
      ok := SendAll(output, script);
      if ok && |putBuffer| > 0 {
        pptr, epptr := 0, |putBuffer|;
        if c.Some? {
          putBuffer := putBuffer[pptr := c.value];
          pptr := pptr + 1;
        }
      }
    }

    method Sync(script: Script) returns (ok: bool)
      requires Valid()
      modifies this
      ensures Valid() && |putBuffer| == old(|putBuffer|)
      ensures ok <==> |old(Pending())| <= Offered(script)
      ensures sent == old(sent) + Through(old(Pending()), script)
      ensures |old(sent)| <= |sent| && SentByTries(old(Pending()), script, ok, sent[|old(sent)|..])
      ensures Pending() == if ok then [] else old(Pending())
    {
      ok := Overflow(None, script);
    }

    /** std::streambuf::sputc. */
    method Put(c: char, script: Script) returns (ok: bool)
      requires Valid()
      modifies this
      ensures Valid() && |putBuffer| == old(|putBuffer|)
      ensures |old(Pending())| < |putBuffer| ==> ok && sent == old(sent) && Pending() == old(Pending()) + [c]
      ensures |old(Pending())| == |putBuffer| ==>
                && (ok <==> |old(Output(Some(c)))| <= Offered(script))
                && sent == old(sent) + Through(old(Output(Some(c))), script)
                && |old(sent)| <= |sent| && SentByTries(old(Output(Some(c))), script, ok, sent[|old(sent)|..])
                && Pending() == (if !ok then old(Pending()) else if putBuffer != [] then [c] else [])
      ensures ok ==> sent + Pending() == old(sent + Pending()) + [c]
    {
      if pptr < epptr {
        putBuffer := putBuffer[pptr := c];
        pptr := pptr + 1;
        ok := true;
      } else {
        ok := Overflow(Some(c), script);
      }
    }

    /** setbuf(0, 0): unbuffered from now on, if nothing is waiting. */
    method SetUnbuffered() returns (accepted: bool)
      requires Valid()
      modifies this
      ensures Valid() && sent == old(sent) && Pending() == old(Pending())
      ensures accepted <==> old(Pending()) == []
      ensures putBuffer == if accepted then [] else old(putBuffer)
    {
      if pptr == 0 {
        putBuffer, pptr, epptr := [], 0, 0;
        assert sent + Pending() == sent;
        var ok := Sync([]);
        accepted := true;
      } else {
        accepted := false;
      }
    }
  }

  // ------------------------------------------------------------------- runs

  datatype Op = PutC(c: char, script: Script) | Flush(script: Script) | Unbuffer

  /** What the socket holds, what is waiting, the size of the put area, and the
      characters whose put reported success. */
  datatype View = View(sent: seq<char>, waiting: seq<char>, room: nat, accepted: seq<char>)

  /** What an operation hands to the socket. */
  function Handed(v: View, op: Op): seq<char> {
    match op
    case PutC(c, _) => if |v.waiting| < v.room then [] else if v.room == 0 then [c] else v.waiting
    case Flush(_) => v.waiting
    case Unbuffer => []
  }

  function ScriptOf(op: Op): Script { if op.Unbuffer? then [] else op.script }

  predicate Fails(v: View, op: Op) { Offered(ScriptOf(op)) < |Handed(v, op)| }

  function Step(v: View, op: Op): View {
    var v' := v.(sent := v.sent + Through(Handed(v, op), ScriptOf(op)));
    if Fails(v, op) then v'
    else
      match op
      case PutC(c, _) =>
        v'.(waiting := if v.room == 0 then [] else if |v.waiting| < v.room then v.waiting + [c] else [c],
            accepted := v.accepted + [c])
      case Flush(_) => v'.(waiting := [])
      case Unbuffer => if v.waiting == [] then v.(room := 0) else v
  }

  function Run(ops: seq<Op>): View {
    if ops == [] then View([], [], BUFFER_SIZE, []) else Step(Run(ops[..|ops| - 1]), ops[|ops| - 1])
  }

  predicate FailsAt(ops: seq<Op>, k: nat)
    requires k < |ops|
  {
    Fails(Run(ops[..k]), ops[k])
  }

  lemma FailsAtPrefix(ops: seq<Op>, n: nat)
    requires n <= |ops|
    ensures forall k :: 0 <= k < n ==> FailsAt(ops[..n], k) == FailsAt(ops, k)
  {
    forall k | 0 <= k < n ensures FailsAt(ops[..n], k) == FailsAt(ops, k) {
      assert ops[..n][..k] == ops[..k];
    }
  }

  lemma RunSnoc(ops: seq<Op>, k: nat)
    requires k < |ops|
    ensures Run(ops[..k + 1]) == Step(Run(ops[..k]), ops[k])
  {
    assert ops[..k + 1][..k] == ops[..k];
  }

  ghost predicate Shows(sb: SocketBuf, v: View)
    reads sb
  {
    sb.Valid() && sb.sent == v.sent && sb.Pending() == v.waiting && |sb.putBuffer| == v.room
  }

  /** The code is the machine: for every sequence of operations and every way the
      socket splits, delays and fails, each operation reports what Fails says and
      the buffer goes on from there. */
  method Drive(ops: seq<Op>) returns (sb: SocketBuf, oks: seq<bool>)
    ensures fresh(sb) && Shows(sb, Run(ops))
    ensures |oks| == |ops| && forall k :: 0 <= k < |ops| ==> (oks[k] <==> !FailsAt(ops, k))
  {
    if ops == [] {
      sb := new SocketBuf();
      oks := [];
    } else {
      var n := |ops| - 1;
      sb, oks := Drive(ops[..n]);
      var ok := Operate(sb, ops[n], Run(ops[..n]));
      FailsAtPrefix(ops, n);
      oks := oks + [ok];
    }
  }

  /** One operation on the buffer is one on the machine. */
  method Operate(sb: SocketBuf, op: Op, ghost v: View) returns (ok: bool)
    requires Shows(sb, v)
    modifies sb
    ensures Shows(sb, Step(v, op))
    ensures ok <==> !Fails(v, op)
  {
    ok := true;
    match op {
      case PutC(c, script) => ok := sb.Put(c, script);
      case Flush(script) => ok := sb.Sync(script);
      case Unbuffer => var _ := sb.SetUnbuffered();
    }
  }

  // ------------------------------------------------------------------ delivery

  /** What failed operations got through before they failed. */
  function Resent(ops: seq<Op>): nat {
    if ops == [] then 0
    else
      var before, op := ops[..|ops| - 1], ops[|ops| - 1];
      Resent(before) + if Fails(Run(before), op) then Offered(ScriptOf(op)) else 0
  }

  lemma StepAccounts(v: View, op: Op)
    requires |v.waiting| <= v.room
    ensures
      var v' := Step(v, op);
      && |v'.waiting| <= v'.room
      && |v'.sent| + |v'.waiting| + |v.accepted|
         == |v.sent| + |v.waiting| + |v'.accepted| + (if Fails(v, op) then Offered(ScriptOf(op)) else 0)
      && (!Fails(v, op) ==> v.sent + v.waiting == v.accepted ==> v'.sent + v'.waiting == v'.accepted)
      && (Fails(v, op) && Offered(ScriptOf(op)) == 0 ==> v' == v)
  {
    if Fails(v, op) && Offered(ScriptOf(op)) == 0 {
      assert v.sent + [] == v.sent;
    }
    var v' := Step(v, op);
    if !Fails(v, op) && op.PutC? && |v.waiting| < v.room {
      assert v.sent + [] == v.sent;
      assert v.sent + (v.waiting + [op.c]) == (v.sent + v.waiting) + [op.c];
    } else if !Fails(v, op) && op.PutC? && v.room == 0 {
      assert (v.sent + [op.c]) + [] == (v.sent + v.waiting) + [op.c];
    } else if !Fails(v, op) && op.Flush? {
      assert (v.sent + v.waiting) + [] == v.sent + v.waiting;
    }
  }

  lemma {:induction false} RunAccounts(ops: seq<Op>)
    ensures |Run(ops).waiting| <= Run(ops).room
    ensures |Run(ops).sent| + |Run(ops).waiting| == |Run(ops).accepted| + Resent(ops)
    ensures Resent(ops) == 0 ==> Run(ops).sent + Run(ops).waiting == Run(ops).accepted
  {
    if ops != [] {
      RunAccounts(ops[..|ops| - 1]);
      StepAccounts(Run(ops[..|ops| - 1]), ops[|ops| - 1]);
    }
  }

  /** No operation failed after getting something through. */
  ghost predicate FailuresSendNothing(ops: seq<Op>) {
    forall k :: 0 <= k < |ops| && FailsAt(ops, k) ==> Offered(ScriptOf(ops[k])) == 0
  }

  lemma FailuresSnoc(ops: seq<Op>)
    requires ops != []
    ensures
      var n := |ops| - 1;
      FailuresSendNothing(ops) <==>
      FailuresSendNothing(ops[..n]) && (FailsAt(ops, n) ==> Offered(ScriptOf(ops[n])) == 0)
  {
    var n := |ops| - 1;
    FailsAtPrefix(ops, n);
    if FailuresSendNothing(ops) {
      forall k | 0 <= k < n && FailsAt(ops[..n], k) ensures Offered(ScriptOf(ops[..n][k])) == 0 {
        assert FailsAt(ops, k);
      }
    }
    if FailuresSendNothing(ops[..n]) && (FailsAt(ops, n) ==> Offered(ScriptOf(ops[n])) == 0) {
      forall k | 0 <= k < |ops| && FailsAt(ops, k) ensures Offered(ScriptOf(ops[k])) == 0 {
        if k < n { assert FailsAt(ops[..n], k) && ops[..n][k] == ops[k]; }
      }
    }
  }

  lemma {:induction false} NothingResentIff(ops: seq<Op>)
    ensures Resent(ops) == 0 <==> FailuresSendNothing(ops)
  {
    if ops != [] {
      NothingResentIff(ops[..|ops| - 1]);
      FailuresSnoc(ops);
    }
  }

  /** DELIVERY, exactly. Over every run, failures and retries included, bytes sent
      followed by bytes waiting are the accepted characters, in order, none lost or
      repeated, if and only if no operation that failed had got anything through;
      otherwise there are just so many bytes too many. */
  lemma DeliveredIff(ops: seq<Op>)
    ensures Run(ops).sent + Run(ops).waiting == Run(ops).accepted <==> FailuresSendNothing(ops)
    ensures |Run(ops).sent| + |Run(ops).waiting| == |Run(ops).accepted| + Resent(ops)
  {
    RunAccounts(ops);
    NothingResentIff(ops);
  }

  predicate Delivered(v: View) { v.sent + v.waiting == v.accepted }

  function WithScript(op: Op, script: Script): Op {
    if op.Unbuffer? then op else op.(script := script)
  }

  /** THE CALLER'S SIDE. Before a put or a flush: the books stay right whatever the
      socket does with it if and only if it hands over one character at most. */
  lemma NextIsSafeIff(v: View, op: Op)
    requires Delivered(v) && |v.waiting| <= v.room
    ensures (forall script: Script :: Delivered(Step(v, WithScript(op, script)))) <==> |Handed(v, op)| <= 1
  {
    forall script: Script | |Handed(v, op)| <= 1 ensures Delivered(Step(v, WithScript(op, script))) {
      StepAccounts(v, WithScript(op, script));
    }
    if |Handed(v, op)| > 1 {
      TakesOne();
      var bad := WithScript(op, TAKE_ONE);
      assert Fails(v, bad);
      StepAccounts(v, bad);
      assert |v.sent + v.waiting| == |v.accepted| && |Step(v, bad).sent + Step(v, bad).waiting| > |Step(v, bad).accepted|;
    }
  }

  /** The socket takes one character and breaks. */
  const TAKE_ONE: Script := [Sent(0), Failed]

  lemma TakesOne()
    ensures Offered(TAKE_ONE) == 1
  {
    assert TAKE_ONE[1..] == [Failed];
    assert Offered([Failed]) == 0;
  }

  /** An unbuffered stream never repeats a byte, whatever the scripts. */
  lemma UnbufferedNeverRepeats(ops: seq<Op>)
    requires ops != [] && ops[0] == Unbuffer
    ensures Run(ops).waiting == [] && Run(ops).sent == Run(ops).accepted
  {
    StaysUnbuffered(ops);
    assert Run(ops).sent + [] == Run(ops).sent;
  }

  lemma {:induction false} StaysUnbuffered(ops: seq<Op>)
    requires ops != [] && ops[0] == Unbuffer
    ensures Run(ops).room == 0 && Run(ops).waiting == [] && Delivered(Run(ops))
  {
    var n := |ops| - 1;
    if n == 0 {
      assert ops[..0] == [] && Run([]) == View([], [], BUFFER_SIZE, []);
      assert Through([], []) == [];
    } else {
      StaysUnbuffered(ops[..n]);
      StepAccounts(Run(ops[..n]), ops[n]);
    }
  }

  function PutBy(ops: seq<Op>): seq<char> {
    if ops == [] then []
    else PutBy(ops[..|ops| - 1]) + if ops[|ops| - 1].PutC? then [ops[|ops| - 1].c] else []
  }

  /** Until the first failure: everything put is sent or waiting, and after a flush
      it is sent. */
  lemma {:induction false} DeliveredUntilFailure(ops: seq<Op>)
    requires forall k :: 0 <= k < |ops| ==> !FailsAt(ops, k)
    ensures Run(ops).sent + Run(ops).waiting == PutBy(ops)
    ensures ops != [] && ops[|ops| - 1].Flush? ==> Run(ops).sent == PutBy(ops)
  {
    if ops != [] { assert !FailsAt(ops, |ops| - 1); }
    NothingResentIff(ops);
    RunAccounts(ops);
    AllAccepted(ops);
    if ops != [] && ops[|ops| - 1].Flush? {
      assert Run(ops).sent + [] == Run(ops).sent;
    }
  }

  lemma {:induction false} AllAccepted(ops: seq<Op>)
    requires forall k :: 0 <= k < |ops| ==> !FailsAt(ops, k)
    ensures Run(ops).accepted == PutBy(ops)
  {
    if ops != [] {
      var n := |ops| - 1;
      FailsAtPrefix(ops, n);
      AllAccepted(ops[..n]);
      assert !FailsAt(ops, n);
    }
  }

  lemma SendingAgainIff(before: seq<char>, waiting: seq<char>, part: seq<char>)
    ensures (before + part) + waiting == before + waiting <==> part == []
  {
    if part == [] {
      assert before + part == before;
    } else {
      assert |(before + part) + waiting| > |before + waiting|;
    }
  }

  /** RETRY. A flush that fails leaves the put area to be sent again from its start:
      when the next flush succeeds the socket holds what it should exactly if the
      failed one had got nothing through. */
  method RetryRepeatsUnlessNothingWasSent(sb: SocketBuf, first: Script, second: Script) returns (ok1: bool, ok2: bool)
    requires sb.Valid()
    modifies sb
    ensures sb.Valid()
    ensures ok1 <==> |old(sb.Pending())| <= Offered(first)
    ensures !ok1 ==> (ok2 <==> |old(sb.Pending())| <= Offered(second))
    ensures !ok1 && ok2 ==>
              && sb.Pending() == []
              && sb.sent == old(sb.sent) + Through(old(sb.Pending()), first) + old(sb.Pending())
              && (sb.sent == old(sb.sent + sb.Pending()) <==> Offered(first) == 0)
              && (|old(sb.Pending())| <= 1 ==> sb.sent == old(sb.sent + sb.Pending()))
  {
    SendingAgainIff(sb.sent, sb.Pending(), Through(sb.Pending(), first));
    ok1 := sb.Sync(first);
    ok2 := sb.Sync(second);
  }

  /** So a flush can be retried blindly if and only if one character waits at most. */
  lemma RetryIsSafeIff(before: seq<char>, waiting: seq<char>)
    ensures (forall first: Script :: Offered(first) < |waiting| ==>
              (before + Through(waiting, first)) + waiting == before + waiting) <==> |waiting| <= 1
  {
    forall first: Script | Offered(first) < |waiting| <= 1
      ensures (before + Through(waiting, first)) + waiting == before + waiting
    {
      SendingAgainIff(before, waiting, Through(waiting, first));
    }
    if |waiting| > 1 {
      TakesOne();
      SendingAgainIff(before, waiting, Through(waiting, TAKE_ONE));
    }
  }

  /** Two or more are waiting: there is a failure after which a retry repeats. */
  method RetryCanRepeat(sb: SocketBuf)
    requires sb.Valid() && |sb.Pending()| > 1
    modifies sb
    ensures sb.Valid() && sb.Pending() == []
    ensures sb.sent == old(sb.sent) + old(sb.Pending())[..1] + old(sb.Pending()) != old(sb.sent + sb.Pending())
  {
    TakesOne();
    ghost var waiting := sb.Pending();
    var all := [Sent(sb.pptr)];
    assert Offered(all) == sb.pptr + 1 + Offered(all[1..]);
    var ok1, ok2 := RetryRepeatsUnlessNothingWasSent(sb, TAKE_ONE, all);
    assert Through(waiting, TAKE_ONE) == waiting[..1];
  }

  /** One such repetition: the socket takes 'a' of "ab" and breaks; the retry sends "ab". */
  method OneCharacterTwice() returns (sb: SocketBuf)
    ensures sb.Valid() && sb.sent == "aab" && sb.Pending() == []
  {
    sb := new SocketBuf();
    var ok := sb.Put('a', []);
    ok := sb.Put('b', []);
    assert sb.sent == "" && sb.Pending() == "ab";
    RetryCanRepeat(sb);
    assert "" + "ab"[..1] + "ab" == "aab";
  }
}
