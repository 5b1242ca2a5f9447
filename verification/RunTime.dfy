/**
 How core/worker/process.cpp accounts for a task's running time, in
 milliseconds: two counters of C++ int fed with 64-bit time differences, which
 pauses do not feed. getDeltaTimeMS is the time since the last updateCycTime.
 */
module RunTime {
  import opened Basics
  import opened States

  /** C++ division of ints truncates toward zero. */
  function Quot(a: int, b: int): int
    requires b > 0
  {
    if a >= 0 then a / b else -((-a) / b)
  }

  /** getProgress of a counter. */
  function Progress(counter: int, averDurationSec: int): int {
    Min(100, Quot(Quot(counter, 1000) * 100, Max(1, averDurationSec)))
  }

  /** checkMaxRunTime of a counter. */
  predicate TimedOut(counter: int, maxDurationSec: int) {
    maxDurationSec > 0 && Quot(counter, 1000) > maxDurationSec
  }

  class Process {
    const averDurationSec: int
    const maxDurationSec: int
    var deltaProgress: int
    var deltaDuration: int
    var progressAt: int  // when each timer was last updated
    var durationAt: int
    var state: StateType
    var isPause: bool
    // The true times behind the counters.
    ghost var startedAt: int
    ghost var counted: nat
    ghost var skipped: nat
    ghost var countedDuration: nat
    ghost var skippedDuration: nat

    ghost predicate Valid()
      reads this
    {
      && counted + skipped == progressAt - startedAt
      && countedDuration + skippedDuration == durationAt - startedAt
      && deltaProgress == IntOf(counted)
      && deltaDuration == IntOf(countedDuration)
    }

    /** The parent's side of the constructor after a fork that worked. */
    constructor (aver: int, max: int, now: int)
      ensures Valid() && averDurationSec == aver && maxDurationSec == max && startedAt == now
      ensures counted == skipped == countedDuration == skippedDuration == 0 && !isPause
      ensures progressAt == durationAt == now && state == RUNNING
    {
      averDurationSec, maxDurationSec := aver, max;
      deltaProgress, deltaDuration, isPause, state := 0, 0, false, RUNNING;
      progressAt, durationAt, startedAt := now, now, now;
      counted, skipped, countedDuration, skippedDuration := 0, 0, 0, 0;
    }

    /** Counted time plus time skipped in pauses is always the time since the start;
        what is reported is the counted time's progress while that fits an int. */
    method GetProgress(now: int) returns (r: int)
      requires Valid() && now >= progressAt
      modifies this`deltaProgress, this`progressAt, this`counted, this`skipped
      ensures Valid() && progressAt == now
      ensures counted == old(counted) + (if isPause then 0 else now - old(progressAt))
      ensures skipped == old(skipped) + (if isPause then now - old(progressAt) else 0)
      ensures r == Progress(IntOf(counted), averDurationSec)
      ensures counted < 0x8000_0000 ==> r == Progress(counted, averDurationSec)
      ensures counted < 0x8000_0000 ==>
                var seconds, m := counted / 1000, if averDurationSec < 1 then 1 else averDurationSec;
                if seconds >= m then r == 100 else 0 <= r < 100 && r * m <= 100 * seconds < (r + 1) * m
    {
      var delta := now - progressAt;
      if !isPause {
        NarrowSum(counted, delta);
        deltaProgress := IntOf(deltaProgress + delta);
        counted := counted + delta;
      } else {
        skipped := skipped + delta;
      }
      progressAt := now;
      IntOfIsExactIff(counted);
      ProgressIsPercent(counted, averDurationSec);
      var dt := Quot(deltaProgress, 1000);
      r := Min(100, Quot(dt * 100, Max(1, averDurationSec)));
    }

    method CheckMaxRunTime(now: int) returns (r: bool)
      requires Valid() && now >= durationAt
      modifies this`deltaDuration, this`durationAt, this`countedDuration, this`skippedDuration
      ensures Valid() && durationAt == now
      ensures countedDuration == old(countedDuration) + (if isPause then 0 else now - old(durationAt))
      ensures skippedDuration == old(skippedDuration) + (if isPause then now - old(durationAt) else 0)
      ensures r == TimedOut(IntOf(countedDuration), maxDurationSec)
      ensures countedDuration < 0x8000_0000 ==> r == TimedOut(countedDuration, maxDurationSec)
      ensures countedDuration < 0x8000_0000 ==>
                (r <==> maxDurationSec > 0 && countedDuration >= 1000 * (maxDurationSec + 1))
    {
      var delta := now - durationAt;
      if !isPause {
        NarrowSum(countedDuration, delta);
        deltaDuration := IntOf(deltaDuration + delta);
        countedDuration := countedDuration + delta;
      } else {
        skippedDuration := skippedDuration + delta;
      }
      durationAt := now;
      IntOfIsExactIff(countedDuration);
      r := maxDurationSec > 0 && Quot(deltaDuration, 1000) > maxDurationSec;
    }

    method SetTaskState(st: StateType)
      requires Valid()
      modifies this`state, this`isPause
      ensures Valid() && state == st && (isPause <==> st == PAUSE)
    {
      state := st;
      isPause := st == PAUSE;
    }
  }

  /** Narrowing at every sample is narrowing once. */
  lemma NarrowSum(a: int, b: int)
    ensures IntOf(IntOf(a) + b) == IntOf(a + b)
  {
  }

  lemma ProductGrows(m: int, x: int, y: int)
    requires m > 0 && x < y
    ensures m * x + m <= m * y
  {
    assert m * y - m * x == m * (y - x);
    assert m * (y - x - 1) >= 0;
  }

  lemma QuotientsInOrder(m: int, x: int, r: int, y: int, q: int)
    requires m > 0 && 0 <= r < m && 0 <= q < m && m * x + r <= m * y + q
    ensures x <= y
  {
    if y < x { ProductGrows(m, y, x); }
  }

  lemma QuotMonotone(a: int, b: int, m: int)
    requires 0 <= a <= b && m > 0
    ensures 0 <= Quot(a, m) <= Quot(b, m)
  {
    QuotientsInOrder(m, a / m, a % m, b / m, b % m);
  }

  lemma HundredIff(dt: nat, m: int)
    requires m > 0
    ensures Quot(dt * 100, m) >= 100 <==> dt >= m
  {
    var q := dt * 100 / m;
    assert dt * 100 == m * q + dt * 100 % m;
    if q < 100 { ProductGrows(m, q, 100); }
    if 100 < q { ProductGrows(m, 100, q); }
  }

  /** The progress of c ms counted is the whole percentage of the average, 100 at most. */
  lemma ProgressIsPercent(c: nat, aver: int)
    ensures
      var r, seconds, m := Progress(c, aver), c / 1000, if aver < 1 then 1 else aver;
      if seconds >= m then r == 100 else 0 <= r < 100 && r * m <= 100 * seconds < (r + 1) * m
  {
    var seconds, m := c / 1000, Max(1, aver);
    HundredIff(seconds, m);
    QuotientIs(seconds * 100, m);
  }

  lemma QuotientIs(a: nat, m: int)
    requires m > 0
    ensures 0 <= a / m && a / m * m <= a < (a / m + 1) * m
  {
    var q := a / m;
    assert a == m * q + a % m;
    assert (q + 1) * m == m * q + m;
  }

  /** PROGRESS. While the counter fits an int: within 0 and 100, never going down
      as counted time grows, and 100 exactly when the counted whole seconds reach
      max(1, averDurationSec); the product by 100 stays within an int too. */
  lemma ProgressIsSound(c: nat, d: nat, aver: int, max: int)
    requires c <= d < 0x8000_0000
    ensures 0 <= Progress(c, aver) <= Progress(d, aver) <= 100
    ensures Progress(c, aver) == 100 <==> c / 1000 >= Max(1, aver)
    ensures Quot(c, 1000) * 100 < 0x8000_0000
    ensures TimedOut(c, max) ==> TimedOut(d, max)
  {
    QuotMonotone(c, d, 1000);
    QuotMonotone(c / 1000 * 100, d / 1000 * 100, Max(1, aver));
    HundredIff(c / 1000, Max(1, aver));
  }

  /** Past 2^31 ms the counter turns negative: the progress reported then is below
      zero for every average up to 100 s, and a timeout is no longer seen. */
  lemma LongRunsAreMisreported(c: nat, aver: int, max: int)
    requires 0x8000_0000 <= c <= 0x1_0000_0000 - 1000 && aver <= 100
    ensures Progress(IntOf(c), aver) < 0
    ensures !TimedOut(IntOf(c), max)
  {
    var dt := Quot(IntOf(c), 1000);
    assert dt <= -1;
    var m := Max(1, aver);
    QuotMonotone(m, -(dt * 100), m);
    assert m / m == 1;
  }

  /** WRAP-AROUND, exactly. The narrowed counter gives the right progress for every
      average duration if and only if less than 2^31 ms have been counted, and the
      right verdict for every limit under the same condition. */
  lemma NarrowedIsRightIff(c: nat)
    ensures (forall aver :: IsInt(aver) ==> Progress(IntOf(c), aver) == Progress(c, aver)) <==> c < 0x8000_0000
    ensures (forall max :: IsInt(max) ==> TimedOut(IntOf(c), max) == TimedOut(c, max)) <==> c < 0x8000_0000
  {
    if c >= 0x8000_0000 {
      var seen := WholeSecondsMissed(c);
      var aver, max := Max(1, seen + 1), Max(1, seen);
      HundredIff(c / 1000, aver);
      assert Progress(c, aver) == 100;
      if seen >= 0 { HundredIff(seen, aver); }
      assert Progress(IntOf(c), aver) != 100;
      assert TimedOut(c, max) && !TimedOut(IntOf(c), max);
    }
  }

  /** Once the counter has wrapped it shows over two million seconds too few. */
  lemma WholeSecondsMissed(c: nat) returns (seen: int)
    requires c >= 0x8000_0000
    ensures seen == Quot(IntOf(c), 1000) && IsInt(seen + 1) && seen + 2_000_000 < c / 1000
  {
    seen := Quot(IntOf(c), 1000);
    assert IntOf(c) <= c - 0x1_0000_0000;
  }

  // ------------------------------------------------------------------- runs

  /** A sample of the progress, a check of the time limit, or a change of state. */
  datatype Op = Sample(now: int) | Check(now: int) | Set(st: StateType)

  datatype Timer = ForProgress | ForDuration

  predicate Reads(op: Op, timer: Timer) {
    if timer.ForProgress? then op.Sample? else op.Check?
  }

  function Paused(ops: seq<Op>): bool {
    if ops == [] then false
    else if ops[|ops| - 1].Set? then ops[|ops| - 1].st == PAUSE
    else Paused(ops[..|ops| - 1])
  }

  /** When the timer was last read; to begin with, the start. */
  function LastAt(ops: seq<Op>, timer: Timer, start: int): int {
    if ops == [] then start
    else if Reads(ops[|ops| - 1], timer) then ops[|ops| - 1].now
    else LastAt(ops[..|ops| - 1], timer, start)
  }

  /** The time between readings that end outside a pause, or inside one. */
  function Time(ops: seq<Op>, timer: Timer, start: int, paused: bool): int {
    if ops == [] then 0
    else
      var before, op := ops[..|ops| - 1], ops[|ops| - 1];
      Time(before, timer, start, paused)
      + if Reads(op, timer) && Paused(before) == paused then op.now - LastAt(before, timer, start) else 0
  }

  /** The clock each timer is read by never goes back. */
  ghost predicate ClockRuns(ops: seq<Op>, start: int) {
    forall k, timer: Timer :: 0 <= k < |ops| && Reads(ops[k], timer) ==> LastAt(ops[..k], timer, start) <= ops[k].now
  }

  datatype Answer = Percent(r: int) | Late(b: bool) | Silent

  /** What the last of ops answers. */
  function AnswerTo(ops: seq<Op>, start: int, aver: int, max: int): Answer
    requires ops != []
  {
    match ops[|ops| - 1]
    case Sample(_) => Percent(Progress(IntOf(Time(ops, ForProgress, start, false)), aver))
    case Check(_) => Late(TimedOut(IntOf(Time(ops, ForDuration, start, false)), max))
    case Set(_) => Silent
  }

  /** The object after ops. */
  ghost predicate After(p: Process, ops: seq<Op>, start: int)
    reads p
  {
    && p.Valid() && p.startedAt == start && p.isPause == Paused(ops)
    && p.progressAt == LastAt(ops, ForProgress, start) && p.durationAt == LastAt(ops, ForDuration, start)
    && p.counted == Time(ops, ForProgress, start, false) && p.skipped == Time(ops, ForProgress, start, true)
    && p.countedDuration == Time(ops, ForDuration, start, false)
    && p.skippedDuration == Time(ops, ForDuration, start, true)
  }

  lemma ClockRanBefore(ops: seq<Op>, start: int)
    requires ClockRuns(ops, start) && ops != []
    ensures
      var n := |ops| - 1;
      && ClockRuns(ops[..n], start)
      && forall timer: Timer :: Reads(ops[n], timer) ==> LastAt(ops[..n], timer, start) <= ops[n].now
  {
    var n := |ops| - 1;
    forall k, timer: Timer | 0 <= k < n && Reads(ops[..n][k], timer)
      ensures LastAt(ops[..n][..k], timer, start) <= ops[..n][k].now
    {
      assert ops[..n][..k] == ops[..k];
      assert Reads(ops[k], timer);
    }
  }

  ghost predicate Answered(answers: seq<Answer>, ops: seq<Op>, start: int, aver: int, max: int) {
    |answers| == |ops| && forall k :: 0 <= k < |ops| ==> answers[k] == AnswerTo(ops[..k + 1], start, aver, max)
  }

  lemma AnsweredOn(answers: seq<Answer>, answer: Answer, ops: seq<Op>, start: int, aver: int, max: int)
    requires ops != [] && Answered(answers, ops[..|ops| - 1], start, aver, max)
    requires answer == AnswerTo(ops, start, aver, max)
    ensures Answered(answers + [answer], ops, start, aver, max)
  {
    var n := |ops| - 1;
    forall k | 0 <= k < |ops| ensures (answers + [answer])[k] == AnswerTo(ops[..k + 1], start, aver, max) {
      if k < n {
        assert ops[..n][..k + 1] == ops[..k + 1];
      } else {
        assert ops[..k + 1] == ops;
      }
    }
  }

  /** Any schedule of samples, checks and changes of state on one process. */
  method Drive(aver: int, max: int, start: int, ops: seq<Op>) returns (p: Process, answers: seq<Answer>)
    requires ClockRuns(ops, start)
    ensures fresh(p) && p.averDurationSec == aver && p.maxDurationSec == max
    ensures After(p, ops, start) && Answered(answers, ops, start, aver, max)
  {
    if ops == [] {
      p := new Process(aver, max, start);
      answers := [];
    } else {
      var n := |ops| - 1;
      ClockRanBefore(ops, start);
      p, answers := Drive(aver, max, start, ops[..n]);
      assert ops == ops[..n] + [ops[n]];
      assert Reads(ops[n], ForProgress) == ops[n].Sample? && Reads(ops[n], ForDuration) == ops[n].Check?;
      var answer := Operate(p, ops[n], ops[..n], start);
      AnsweredOn(answers, answer, ops, start, aver, max);
      answers := answers + [answer];
    }
  }

  method Operate(p: Process, op: Op, ghost before: seq<Op>, ghost start: int) returns (answer: Answer)
    requires After(p, before, start)
    requires op.Sample? ==> LastAt(before, ForProgress, start) <= op.now
    requires op.Check? ==> LastAt(before, ForDuration, start) <= op.now
    modifies p
    ensures After(p, before + [op], start)
    ensures answer == AnswerTo(before + [op], start, p.averDurationSec, p.maxDurationSec)
  {
    ghost var ops := before + [op];
    assert ops[..|ops| - 1] == before;
    match op {
      case Sample(now) =>
        var r := p.GetProgress(now);
        answer := Percent(r);
      case Check(now) =>
        var b := p.CheckMaxRunTime(now);
        answer := Late(b);
      case Set(st) =>
        p.SetTaskState(st);
        answer := Silent;
    }
  }

  lemma {:induction false} TimeGrows(ops: seq<Op>, timer: Timer, start: int, j: nat, k: nat)
    requires ClockRuns(ops, start) && j <= k <= |ops|
    ensures 0 <= Time(ops[..j], timer, start, false) <= Time(ops[..k], timer, start, false)
  {
    if k > 0 {
      assert ops[..k][..k - 1] == ops[..k - 1];
      if j < k {
        TimeGrows(ops, timer, start, j, k - 1);
      } else {
        TimeGrows(ops, timer, start, k - 1, k - 1);
      }
    }
  }

  /** Counted time plus time skipped in pauses is the time from the start to the
      last reading, whatever the schedule. */
  lemma {:induction false} TimesAddUp(ops: seq<Op>, timer: Timer, start: int)
    ensures Time(ops, timer, start, false) + Time(ops, timer, start, true) == LastAt(ops, timer, start) - start
  {
    if ops != [] { TimesAddUp(ops[..|ops| - 1], timer, start); }
  }

  /** RUNS. Over any schedule, as long as the counter fits an int: every sample
      answers within 0 and 100, never less than one before it, and 100 exactly
      when the seconds counted reach max(1, averDurationSec); and a check that has
      found the task late is never taken back. */
  lemma RunIsSound(ops: seq<Op>, start: int, aver: int, max: int, j: nat, k: nat)
    requires ClockRuns(ops, start) && j <= k < |ops|
    ensures ops[j].Sample? && ops[k].Sample? && Time(ops[..k + 1], ForProgress, start, false) < 0x8000_0000 ==>
              var a := AnswerTo(ops[..j + 1], start, aver, max).r;
              var b := AnswerTo(ops[..k + 1], start, aver, max).r;
              && 0 <= a <= b <= 100
              && (b == 100 <==> Time(ops[..k + 1], ForProgress, start, false) / 1000 >= Max(1, aver))
    ensures ops[j].Check? && ops[k].Check? && Time(ops[..k + 1], ForDuration, start, false) < 0x8000_0000 ==>
              AnswerTo(ops[..j + 1], start, aver, max).b ==> AnswerTo(ops[..k + 1], start, aver, max).b
  {
    var timer := if ops[k].Sample? then ForProgress else ForDuration;
    TimeGrows(ops, timer, start, j + 1, k + 1);
    var c, d := Time(ops[..j + 1], timer, start, false), Time(ops[..k + 1], timer, start, false);
    if d < 0x8000_0000 {
      ProgressIsSound(c, d, aver, max);
      ProgressIsSound(d, d, aver, max);
    }
  }
}
