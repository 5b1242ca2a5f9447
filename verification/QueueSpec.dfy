/**
 The atomic FIFO object that core/common/queue.h is meant to be: what each
 operation does to the sequence of queued values, and the canonical
 linearizable object built from it, in which every call takes effect at one
 instant between its call and its return.
 */
module QueueSpec {
  type Tid = nat

  datatype Op<+T> = Push(v: T) | TryPop | Front | Empty | Size

  datatype Result<+T> = Unit | Value(v: T) | NoElement | Flag(b: bool) | Count(n: int)

  /** One operation on the queued values: the values left and the answer given. */
  function Apply<T>(op: Op<T>, q: seq<T>): (seq<T>, Result<T>) {
    match op
    case Push(v) => (q + [v], Unit)
    case TryPop => if q == [] then (q, NoElement) else (q[1..], Value(q[0]))
    case Front => if q == [] then (q, NoElement) else (q, Value(q[0]))
    case Empty => (q, Flag(q == []))
    case Size => (q, Count(|q|))
  }

  /** Where a thread stands in its current call. */
  datatype Phase<+T> = Resting | Called(op: Op<T>) | Done(res: Result<T>)

  /** What a step shows to the outside: nothing, a call, or a return. */
  datatype Label<+T> = Tau | Call(t: Tid, op: Op<T>) | Return(t: Tid, res: Result<T>)

  /** pushed and popped record every value that ever took effect, in order. */
  datatype Spec<+T> = Spec(q: seq<T>, phase: seq<Phase<T>>, pushed: seq<T>, popped: seq<T>)

  function SpecInit<T>(threads: nat): Spec<T> {
    Spec([], seq(threads, i => Resting), [], [])
  }

  /** Thread t's pending call takes effect, all at once. */
  function TakeEffect<T>(a: Spec<T>, t: Tid): Spec<T>
    requires t < |a.phase| && a.phase[t].Called?
  {
    var op := a.phase[t].op;
    var (q, res) := Apply(op, a.q);
    Spec(q, a.phase[t := Done(res)],
         if op.Push? then a.pushed + [op.v] else a.pushed,
         if op.TryPop? && res.Value? then a.popped + [res.v] else a.popped)
  }

  ghost predicate SpecNext<T>(a: Spec<T>, l: Label<T>, a': Spec<T>) {
    match l
    case Tau =>
      || a' == a
      || exists t: Tid :: t < |a.phase| && a.phase[t].Called? && a' == TakeEffect(a, t)
    case Call(t, op) =>
      t < |a.phase| && a.phase[t].Resting? && a' == a.(phase := a.phase[t := Called(op)])
    case Return(t, res) =>
      t < |a.phase| && a.phase[t] == Done(res) && a' == a.(phase := a.phase[t := Resting])
  }

  ghost predicate IsSpecRun<T(!new)>(specs: seq<Spec<T>>, labels: seq<Label<T>>, threads: nat) {
    && |specs| == |labels| + 1
    && specs[0] == SpecInit(threads)
    && forall i {:trigger labels[i]} :: 0 <= i < |labels| ==> SpecNext(specs[i], labels[i], specs[i + 1])
  }

  /** Whatever the schedule, the popped values followed by the queued ones are
      exactly the pushed ones: no value is lost, repeated or overtaken. */
  lemma {:induction false} FirstInFirstOut<T(!new)>(specs: seq<Spec<T>>, labels: seq<Label<T>>, threads: nat, k: nat)
    requires IsSpecRun(specs, labels, threads)
    requires k < |specs|
    ensures specs[k].pushed == specs[k].popped + specs[k].q
  {
    if k > 0 {
      FirstInFirstOut(specs, labels, threads, k - 1);
      assert SpecNext(specs[k - 1], labels[k - 1], specs[k]);
    }
  }

  /** The call of t takes effect in this step. */
  predicate TakesEffect<T(==)>(a: Spec<T>, a': Spec<T>, t: Tid) {
    t < |a.phase| && t < |a'.phase| && a.phase[t].Called? && a'.phase[t].Done?
  }

  /** The answer an operation gives and what it adds to the record, in terms of the values
      pushed and popped before it alone. */
  ghost predicate RightEffect<T>(op: Op<T>, res: Result<T>, pushed: seq<T>, popped: seq<T>,
                                 pushed': seq<T>, popped': seq<T>)
  {
    && |popped| <= |pushed|
    && match op
       case Push(v) => res == Unit && pushed' == pushed + [v] && popped' == popped
       case TryPop =>
         && pushed' == pushed
         && (if popped == pushed then res == NoElement && popped' == popped
             else |popped| < |pushed| && res == Value(pushed[|popped|]) && popped' == popped + [pushed[|popped|]])
       case Front =>
         && pushed' == pushed && popped' == popped
         && (if popped == pushed then res == NoElement
             else |popped| < |pushed| && res == Value(pushed[|popped|]))
       case Empty => pushed' == pushed && popped' == popped && res == Flag(pushed == popped)
       case Size => pushed' == pushed && popped' == popped && res == Count(|pushed| - |popped|)
  }

  /** Over any run every call that takes effect gives the right answer: the oldest value not
      yet popped, none only if all are, and the number of those that are not. */
  lemma AnswersAreRight<T(!new)>(specs: seq<Spec<T>>, labels: seq<Label<T>>, threads: nat, k: nat, t: Tid)
    requires IsSpecRun(specs, labels, threads) && k < |labels|
    requires TakesEffect(specs[k], specs[k + 1], t)
    ensures RightEffect(specs[k].phase[t].op, specs[k + 1].phase[t].res,
                        specs[k].pushed, specs[k].popped, specs[k + 1].pushed, specs[k + 1].popped)
  {
    var a, a' := specs[k], specs[k + 1];
    FirstInFirstOut(specs, labels, threads, k);
    assert SpecNext(a, labels[k], a');
    var u: Tid :| u < |a.phase| && a.phase[u].Called? && a' == TakeEffect(a, u);
    assert u == t;
    EffectIsRight(a, t);
  }

  lemma EffectIsRight<T>(a: Spec<T>, t: Tid)
    requires t < |a.phase| && a.phase[t].Called? && a.pushed == a.popped + a.q
    ensures var a' := TakeEffect(a, t);
            RightEffect(a.phase[t].op, a'.phase[t].res, a.pushed, a.popped, a'.pushed, a'.popped)
  {
    if a.q == [] {
      assert a.pushed == a.popped;
    } else {
      assert a.pushed[|a.popped|] == a.q[0];
    }
  }
}
