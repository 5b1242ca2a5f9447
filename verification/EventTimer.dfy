/**
 The event clock of web/server/events_process.py: at every tick each enabled
 event may start because its period has run out or because one of its times of
 day has come. The stored accumulator is taken to be exact.
 */
module EventTimer {
  import opened Selections

  // ------------------------------------------------------------ period starts

  /** Lines 59-63 for one enabled tick: does it start, and the accumulator after. */
  function EveryStep(period: int, acc: real, dt: real): (bool, real) {
    if period > 0 then
      if acc + dt > period as real then (true, 0.0) else (false, acc + dt)
    else (false, acc)
  }

  function Acc(period: int, acc0: real, dts: seq<real>): real {
    if dts == [] then acc0
    else EveryStep(period, Acc(period, acc0, dts[..|dts| - 1]), dts[|dts| - 1]).1
  }

  predicate Fires(period: int, acc0: real, dts: seq<real>, k: nat)
    requires k < |dts|
  {
    EveryStep(period, Acc(period, acc0, dts[..k]), dts[k]).0
  }

  function Sum(dts: seq<real>): real {
    if dts == [] then 0.0 else Sum(dts[..|dts| - 1]) + dts[|dts| - 1]
  }

  predicate NonNegative(dts: seq<real>) {
    forall k :: 0 <= k < |dts| ==> dts[k] >= 0.0
  }

  lemma {:induction false} AccInRange(period: int, acc0: real, dts: seq<real>)
    requires period > 0 && acc0 >= 0.0 && NonNegative(dts)
    ensures 0.0 <= Acc(period, acc0, dts)
    ensures dts != [] || acc0 <= period as real ==> Acc(period, acc0, dts) <= period as real
  {
    if dts != [] { AccInRange(period, acc0, dts[..|dts| - 1]); }
  }

  /** From tick i on, with no start since, the accumulator is what it was plus the time gone by. */
  lemma {:induction false} AccIsElapsed(period: int, acc0: real, dts: seq<real>, i: nat)
    requires period > 0 && i <= |dts|
    requires forall k :: i <= k < |dts| ==> !Fires(period, acc0, dts, k)
    ensures Acc(period, acc0, dts) == Acc(period, acc0, dts[..i]) + Sum(dts[i..])
  {
    if i == |dts| {
      assert dts[..i] == dts;
    } else {
      var n := |dts| - 1;
      var before := dts[..n];
      forall k | i <= k < n ensures !Fires(period, acc0, before, k) {
        assert before[..k] == dts[..k];
        assert !Fires(period, acc0, dts, k);
      }
      AccIsElapsed(period, acc0, before, i);
      assert before[..i] == dts[..i] && dts[i..][..n - i] == before[i..];
      assert !Fires(period, acc0, dts, n);
    }
  }

  /** PERIOD. Between two starts in a row more than the period has gone by, and at
      most the period plus the last tick; the same from the beginning if the
      accumulator started at zero. */
  lemma StartsAreAPeriodApart(period: int, acc0: real, dts: seq<real>, i: nat, j: nat)
    requires period > 0 && acc0 >= 0.0 && NonNegative(dts) && i < j < |dts|
    requires Fires(period, acc0, dts, i) && Fires(period, acc0, dts, j)
    requires forall k :: i < k < j ==> !Fires(period, acc0, dts, k)
    ensures period as real < Sum(dts[i + 1..j + 1]) <= period as real + dts[j]
  {
    var upTo := dts[..j];
    assert upTo[..i + 1][..i] == dts[..i];
    assert dts[i + 1..j + 1][..j - i - 1] == upTo[i + 1..];
    forall k | i + 1 <= k < |upTo| ensures !Fires(period, acc0, upTo, k) {
      assert upTo[..k] == dts[..k];
      assert !Fires(period, acc0, dts, k);
    }
    AccIsElapsed(period, acc0, upTo, i + 1);
    assert Acc(period, acc0, upTo[..i + 1]) == 0.0;
    AccInRange(period, acc0, upTo);
  }

  /** Without a period nothing is ever started or counted. */
  lemma {:induction false} NoPeriodNoStart(period: int, acc0: real, dts: seq<real>)
    requires period <= 0
    ensures Acc(period, acc0, dts) == acc0
    ensures forall k :: 0 <= k < |dts| ==> !Fires(period, acc0, dts, k)
  {
    if dts != [] { NoPeriodNoStart(period, acc0, dts[..|dts| - 1]); }
  }

  // ------------------------------------------------------------- daily starts

  /** Lines 65-71: the entries started at a tick, in order, and the last start after it. */
  function DailyStep(entries: seq<string>, last: string, hm: string, date: string): (seq<string>, string) {
    if entries == [] then ([], last)
    else if hm == entries[0] && last != hm then
      var (starts, last') := DailyStep(entries[1..], hm, hm, date);
      ([hm] + starts, last')
    else if date == entries[0] && last != date then
      var (starts, last') := DailyStep(entries[1..], date, hm, date);
      ([date] + starts, last')
    else DailyStep(entries[1..], last, hm, date)
  }

  // ------------------------------------------------------------ starting tasks

  /** isEnabled of each row of tblPipelineTask. */
  type PplTable = map<int, bool>

  predicate AllPresent(tasks: seq<int>, table: PplTable) {
    forall i :: 0 <= i < |tasks| ==> tasks[i] in table
  }

  /** What one startTask puts in the queue: the enabled tasks in order, up to the
      first that has no row, where it fails. */
  function QueuedBy(tasks: seq<int>, table: PplTable): seq<int> {
    if tasks == [] || tasks[0] !in table then []
    else (if table[tasks[0]] then [tasks[0]] else []) + QueuedBy(tasks[1..], table)
  }

  /** Where the first task without a row stands; the end, if every task has one. */
  function FirstMissing(tasks: seq<int>, table: PplTable): (n: nat)
    ensures n <= |tasks| && (forall i :: 0 <= i < n ==> tasks[i] in table)
    ensures n < |tasks| ==> tasks[n] !in table
  {
    if tasks == [] || tasks[0] !in table then 0 else 1 + FirstMissing(tasks[1..], table)
  }

  /** Which tasks are enabled. */
  function EnabledAt(tasks: seq<int>, table: PplTable): (mask: seq<bool>)
    ensures |mask| == |tasks|
    ensures forall i :: 0 <= i < |tasks| ==> (mask[i] <==> tasks[i] in table && table[tasks[i]])
  {
    seq(|tasks|, i requires 0 <= i < |tasks| => tasks[i] in table && table[tasks[i]])
  }

  lemma {:induction false} QueuedByFrom(tasks: seq<int>, table: PplTable, i: nat)
    requires i <= |tasks|
    requires forall k :: 0 <= k < i ==> tasks[k] in table
    ensures i <= FirstMissing(tasks, table)
    ensures Filter(tasks, EnabledAt(tasks, table), i) + QueuedBy(tasks[i..], table)
         == Filter(tasks, EnabledAt(tasks, table), FirstMissing(tasks, table))
    decreases |tasks| - i
  {
    var done := Filter(tasks, EnabledAt(tasks, table), i);
    if i == |tasks| || tasks[i] !in table {
      assert i == FirstMissing(tasks, table);
      assert done + [] == done;
    } else {
      assert tasks[i..][1..] == tasks[i + 1..];
      QueuedByFrom(tasks, table, i + 1);
      Regroup(done, if table[tasks[i]] then [tasks[i]] else [], QueuedBy(tasks[i + 1..], table));
    }
  }

  lemma Regroup(a: seq<int>, b: seq<int>, c: seq<int>)
    ensures a + (b + c) == (a + b) + c
  {
  }

  /** In queued every enabled task is as often as among the first n, and no other task. */
  ghost predicate CountsEnabled(queued: seq<int>, tasks: seq<int>, n: nat, table: PplTable)
    requires n <= |tasks|
  {
    forall t :: multiset(queued)[t] == if t in table && table[t] then multiset(tasks[..n])[t] else 0
  }

  /** What is queued are the enabled tasks before the first without a row, in their order. */
  lemma QueuedByIsEnabled(tasks: seq<int>, table: PplTable)
    ensures QueuedBy(tasks, table) == Filter(tasks, EnabledAt(tasks, table), FirstMissing(tasks, table))
    ensures CountsEnabled(QueuedBy(tasks, table), tasks, FirstMissing(tasks, table), table)
  {
    assert tasks[0..] == tasks;
    QueuedByFrom(tasks, table, 0);
    EnabledCounts(tasks, table, FirstMissing(tasks, table));
  }

  lemma {:induction false} EnabledCounts(tasks: seq<int>, table: PplTable, n: nat)
    requires n <= |tasks| && forall i :: 0 <= i < n ==> tasks[i] in table
    ensures CountsEnabled(Filter(tasks, EnabledAt(tasks, table), n), tasks, n, table)
  {
    if n > 0 {
      EnabledCounts(tasks, table, n - 1);
      EnabledNext(Filter(tasks, EnabledAt(tasks, table), n - 1), tasks, n - 1, table);
    }
  }

  lemma EnabledNext(queued: seq<int>, tasks: seq<int>, n: nat, table: PplTable)
    requires n < |tasks| && tasks[n] in table && CountsEnabled(queued, tasks, n, table)
    ensures CountsEnabled(queued + if table[tasks[n]] then [tasks[n]] else [], tasks, n + 1, table)
  {
    assert tasks[..n + 1] == tasks[..n] + [tasks[n]];
    assert queued + [] == queued;
  }

  function Repeat(s: seq<int>, n: nat): seq<int> {
    if n == 0 then [] else Repeat(s, n - 1) + s
  }

  lemma {:induction false} RepeatCounts(s: seq<int>, n: nat)
    ensures forall t :: multiset(Repeat(s, n))[t] == n * multiset(s)[t]
  {
    if n > 0 {
      RepeatCounts(s, n - 1);
      forall t ensures multiset(Repeat(s, n))[t] == n * multiset(s)[t] {
        var m := multiset(s)[t];
        assert (n - 1) * m + m == n * m;
      }
    }
  }

  lemma AllPresentIff(tasks: seq<int>, table: PplTable)
    ensures AllPresent(tasks, table) <==> FirstMissing(tasks, table) == |tasks|
    ensures if AllPresent(tasks, table) then forall t :: t in tasks ==> t in table
            else exists t :: t in tasks && t !in table
  {
    var n := FirstMissing(tasks, table);
    if n < |tasks| {
      var t := tasks[n];
      assert t in tasks && t !in table;
    }
  }

  /** What starts runs of startTask put in the queue: every enabled task so often; or,
      when a row is missing, the enabled tasks before it, in their order. */
  ghost predicate QueuedRightly(tasks: seq<int>, table: PplTable, starts: nat, ok: bool, queued: seq<int>) {
    if ok then
      && (starts > 0 ==> forall t :: t in tasks ==> t in table)
      && forall t :: multiset(queued)[t] == if t in table && table[t] then starts * multiset(tasks)[t] else 0
    else
      && (exists t :: t in tasks && t !in table)
      && queued == Filter(tasks, EnabledAt(tasks, table), FirstMissing(tasks, table))
  }

  lemma StartsAreRight(tasks: seq<int>, table: PplTable, starts: nat)
    requires AllPresent(tasks, table) || starts == 0
    ensures QueuedRightly(tasks, table, starts, true, Repeat(QueuedBy(tasks, table), starts))
  {
    QueuedByIsEnabled(tasks, table);
    AllPresentIff(tasks, table);
    assert tasks[..|tasks|] == tasks;
    RepeatCounts(QueuedBy(tasks, table), starts);
  }

  lemma FailureIsRight(tasks: seq<int>, table: PplTable, starts: nat)
    requires !AllPresent(tasks, table)
    ensures QueuedRightly(tasks, table, starts, false, QueuedBy(tasks, table))
  {
    QueuedByIsEnabled(tasks, table);
    AllPresentIff(tasks, table);
  }

  /** queued are the enabled tasks before the first without a row, in their order: each as
      often as it is listed there. */
  ghost predicate TakesEnabled(queued: seq<int>, tasks: seq<int>, table: PplTable) {
    var n := FirstMissing(tasks, table);
    queued == Filter(tasks, EnabledAt(tasks, table), n) && CountsEnabled(queued, tasks, n, table)
  }

  method StartTask(tasks: seq<int>, table: PplTable) returns (queued: seq<int>, ok: bool)
    ensures queued == QueuedBy(tasks, table)
    ensures ok <==> AllPresent(tasks, table)
    ensures TakesEnabled(queued, tasks, table)
  {
    ghost var n := FirstMissing(tasks, table);
    QueuedByIsEnabled(tasks, table);
    queued := [];
    var i := 0;
    while i < |tasks|
      invariant 0 <= i <= n
      invariant queued == Filter(tasks, EnabledAt(tasks, table), i)
    {
      if tasks[i] !in table {
        assert i == n;
        return queued, false;
      }
      if table[tasks[i]] {
        queued := queued + [tasks[i]];
      }
      i := i + 1;
    }
    ok := true;
  }

  /** The stored event. A tick works on a copy and stores the last-start fields at
      its end, so a tick that fails leaves them as they were. */
  class Event {
    var isEnabled: bool
    var timeStartEverySec: int
    var timeLastStartEverySec: real
    var timeStartOnceOfDay: seq<string>
    var timeLastStartOnceOfDay: string
    var tasksForStart: seq<int>

    constructor (isEnabled: bool, everySec: int, onceOfDay: seq<string>, tasks: seq<int>)
      ensures this.isEnabled == isEnabled && timeStartEverySec == everySec && timeStartOnceOfDay == onceOfDay
      ensures tasksForStart == tasks && timeLastStartEverySec == 0.0 && timeLastStartOnceOfDay == ""
    {
      this.isEnabled, timeStartEverySec, timeStartOnceOfDay := isEnabled, everySec, onceOfDay;
      tasksForStart, timeLastStartEverySec, timeLastStartOnceOfDay := tasks, 0.0, "";
    }

    /** What a tick would start: for the period, and which times of day. */
    function Due(dt: real, hm: string, date: string): (nat, real, string)
      reads this
    {
      var (every, acc') := EveryStep(timeStartEverySec, timeLastStartEverySec, dt);
      var (times, last') := DailyStep(timeStartOnceOfDay, timeLastStartOnceOfDay, hm, date);
      ((if every then 1 else 0) + |times|, acc', last')
    }

    /** checkEvents for this event at one tick. Its tasks are queued once for each
        start that is due; if one of them has no row, the first start that is due
        fails part way, nothing is stored, and the next tick will try again. */
    method Check(dt: real, hm: string, date: string, table: PplTable) returns (queued: seq<int>, ok: bool)
      modifies this`timeLastStartEverySec, this`timeLastStartOnceOfDay
      ensures !isEnabled ==> ok && queued == [] && unchanged(this)
      ensures isEnabled ==>
                var (starts, acc', last') := old(Due(dt, hm, date));
                if AllPresent(tasksForStart, table) || starts == 0 then
                  && ok && queued == Repeat(QueuedBy(tasksForStart, table), starts)
                  && timeLastStartEverySec == acc' && timeLastStartOnceOfDay == last'
                else !ok && queued == QueuedBy(tasksForStart, table) && unchanged(this)
      ensures isEnabled ==> QueuedRightly(tasksForStart, table, old(Due(dt, hm, date)).0, ok, queued)
    {
      queued, ok := [], true;
      if isEnabled {
        ghost var starts := Due(dt, hm, date).0;
        queued, ok := CheckEnabled(dt, hm, date, table);
        if ok {
          StartsAreRight(tasksForStart, table, starts);
        } else {
          FailureIsRight(tasksForStart, table, starts);
        }
      }
    }

    method CheckEnabled(dt: real, hm: string, date: string, table: PplTable) returns (queued: seq<int>, ok: bool)
      modifies this`timeLastStartEverySec, this`timeLastStartOnceOfDay
      ensures
        var (starts, acc', last') := old(Due(dt, hm, date));
        if AllPresent(tasksForStart, table) || starts == 0 then
          && ok && queued == Repeat(QueuedBy(tasksForStart, table), starts)
          && timeLastStartEverySec == acc' && timeLastStartOnceOfDay == last'
        else !ok && queued == QueuedBy(tasksForStart, table) && unchanged(this)
    {
      queued, ok := [], true;
      var acc := timeLastStartEverySec;
      ghost var once := QueuedBy(tasksForStart, table);
      ghost var n := 0;
      if timeStartEverySec > 0 {
        acc := acc + dt;
        if acc > timeStartEverySec as real {
          queued, ok := StartTask(tasksForStart, table);
          if !ok {
            return;
          }
          assert queued == Repeat(once, 0) + once;
          acc, n := 0.0, 1;
        }
      }
      var more, last;
      more, last, ok := CheckTimes(hm, date, table);
      ghost var times := DailyStep(timeStartOnceOfDay, timeLastStartOnceOfDay, hm, date).0;
      RepeatAdds(once, n, |times|);
      queued := queued + more;
      if ok {
        timeLastStartEverySec, timeLastStartOnceOfDay := acc, last;
      }
    }

    /** The loop over the times of day, on a copy of the last start. */
    method CheckTimes(hm: string, date: string, table: PplTable) returns (queued: seq<int>, last: string, ok: bool)
      ensures
        var (times, last') := DailyStep(timeStartOnceOfDay, timeLastStartOnceOfDay, hm, date);
        if AllPresent(tasksForStart, table) || times == []
        then ok && queued == Repeat(QueuedBy(tasksForStart, table), |times|) && last == last'
        else !ok && queued == QueuedBy(tasksForStart, table)
    {
      queued, last, ok := [], timeLastStartOnceOfDay, true;
      ghost var whole := DailyStep(timeStartOnceOfDay, last, hm, date);
      ghost var once := QueuedBy(tasksForStart, table);
      ghost var n := 0;
      var i := 0;
      assert timeStartOnceOfDay[0..] == timeStartOnceOfDay;
      while i < |timeStartOnceOfDay|
        invariant 0 <= i <= |timeStartOnceOfDay| && ok
        invariant queued == Repeat(once, n)
        invariant n > 0 ==> AllPresent(tasksForStart, table)
        invariant
          var (rest, last') := DailyStep(timeStartOnceOfDay[i..], last, hm, date);
          n + |rest| == |whole.0| && last' == whole.1
      {
        var stTime := timeStartOnceOfDay[i];
        assert timeStartOnceOfDay[i..][1..] == timeStartOnceOfDay[i + 1..];
        if (hm == stTime && last != hm) || (date == stTime && last != date) {
          var more;
          more, ok := StartTask(tasksForStart, table);
          queued := queued + more;
          if !ok {
            assert [] + more == more;
            return;
          }
          last := if hm == stTime && last != hm then hm else date;
          n := n + 1;
        }
        i := i + 1;
      }
    }
  }

  lemma {:induction false} RepeatAdds(s: seq<int>, m: nat, n: nat)
    ensures Repeat(s, m) + Repeat(s, n) == Repeat(s, m + n)
  {
    if n == 0 {
      assert Repeat(s, m) + [] == Repeat(s, m);
    } else {
      RepeatAdds(s, m, n - 1);
      assert Repeat(s, m) + (Repeat(s, n - 1) + s) == (Repeat(s, m) + Repeat(s, n - 1)) + s;
    }
  }

  /** A second tick in the same minute starts nothing, unless the event lists both
      the time of day and the full date of that minute: then every tick of the
      minute starts again. */
  lemma SecondTickSilentIff(entries: seq<string>, last: string, hm: string, date: string)
    requires hm != date
    ensures
      var (_, last') := DailyStep(entries, last, hm, date);
      DailyStep(entries, last', hm, date).0 == [] <==> !(hm in entries && date in entries)
  {
    var (_, last') := DailyStep(entries, last, hm, date);
    LastAfter(entries, last, hm, date);
    SilentIff(entries, last', hm, date);
  }

  lemma {:induction false} LastAfter(entries: seq<string>, last: string, hm: string, date: string)
    requires hm != date
    ensures
      var (_, last') := DailyStep(entries, last, hm, date);
      && (hm !in entries && date !in entries ==> last' == last)
      && (hm in entries && date !in entries ==> last' == hm)
      && (hm !in entries && date in entries ==> last' == date)
  {
    if entries != [] {
      assert entries == [entries[0]] + entries[1..];
      LastAfter(entries[1..], last, hm, date);
      LastAfter(entries[1..], hm, hm, date);
      LastAfter(entries[1..], date, hm, date);
    }
  }

  lemma {:induction false} SilentIff(entries: seq<string>, last: string, hm: string, date: string)
    requires hm != date
    ensures DailyStep(entries, last, hm, date).0 == [] <==>
            (hm in entries ==> last == hm) && (date in entries ==> last == date)
  {
    if entries != [] {
      assert entries == [entries[0]] + entries[1..];
      SilentIff(entries[1..], last, hm, date);
    }
  }

  // ------------------------------------------------------------------- runs

  /** What the user has set for an event. */
  datatype Plan = Plan(isEnabled: bool, everySec: int, onceOfDay: seq<string>, tasks: seq<int>)

  datatype ClockTick = ClockTick(dt: real, hm: string, date: string, table: PplTable)

  /** The two last-start fields. */
  datatype Stored = Stored(acc: real, last: string)

  function Every(plan: Plan, st: Stored, tick: ClockTick): (bool, real) {
    EveryStep(plan.everySec, st.acc, tick.dt)
  }

  function Daily(plan: Plan, st: Stored, tick: ClockTick): (seq<string>, string) {
    DailyStep(plan.onceOfDay, st.last, tick.hm, tick.date)
  }

  /** How many starts are due. */
  function StartsDue(plan: Plan, st: Stored, tick: ClockTick): nat {
    if !plan.isEnabled then 0
    else (if Every(plan, st, tick).0 then 1 else 0) + |Daily(plan, st, tick).0|
  }

  predicate TickFails(plan: Plan, st: Stored, tick: ClockTick) {
    StartsDue(plan, st, tick) > 0 && !AllPresent(plan.tasks, tick.table)
  }

  function AfterTick(plan: Plan, st: Stored, tick: ClockTick): Stored {
    if !plan.isEnabled || TickFails(plan, st, tick) then st
    else Stored(Every(plan, st, tick).1, Daily(plan, st, tick).1)
  }

  function After(plan: Plan, ticks: seq<ClockTick>): Stored {
    if ticks == [] then Stored(0.0, "")
    else AfterTick(plan, After(plan, ticks[..|ticks| - 1]), ticks[|ticks| - 1])
  }

  /** What all the ticks put in the queue, failed ones as far as they got. */
  function AllQueued(plan: Plan, ticks: seq<ClockTick>): seq<int> {
    if ticks == [] then []
    else
      var before, tick := ticks[..|ticks| - 1], ticks[|ticks| - 1];
      var st := After(plan, before);
      AllQueued(plan, before)
      + Repeat(QueuedBy(plan.tasks, tick.table), if TickFails(plan, st, tick) then 1 else StartsDue(plan, st, tick))
  }

  ghost predicate Shows(ev: Event, plan: Plan, st: Stored)
    reads ev
  {
    && ev.isEnabled == plan.isEnabled && ev.timeStartEverySec == plan.everySec
    && ev.timeStartOnceOfDay == plan.onceOfDay && ev.tasksForStart == plan.tasks
    && ev.timeLastStartEverySec == st.acc && ev.timeLastStartOnceOfDay == st.last
  }

  /** Any run of ticks of one event. */
  method Drive(plan: Plan, ticks: seq<ClockTick>) returns (ev: Event, queued: seq<int>)
    ensures fresh(ev) && Shows(ev, plan, After(plan, ticks))
    ensures queued == AllQueued(plan, ticks)
  {
    if ticks == [] {
      ev := new Event(plan.isEnabled, plan.everySec, plan.onceOfDay, plan.tasks);
      queued := [];
    } else {
      var n := |ticks| - 1;
      ev, queued := Drive(plan, ticks[..n]);
      var more := Operate(ev, ticks[n], plan, After(plan, ticks[..n]));
      queued := queued + more;
    }
  }

  method Operate(ev: Event, tick: ClockTick, ghost plan: Plan, ghost st: Stored) returns (queued: seq<int>)
    requires Shows(ev, plan, st)
    modifies ev
    ensures Shows(ev, plan, AfterTick(plan, st, tick))
    ensures queued == Repeat(QueuedBy(plan.tasks, tick.table),
                             if TickFails(plan, st, tick) then 1 else StartsDue(plan, st, tick))
  {
    ghost var once := QueuedBy(plan.tasks, tick.table);
    assert Repeat(once, 1) == Repeat(once, 0) + once == once;
    var ok;
    queued, ok := ev.Check(tick.dt, tick.hm, tick.date, tick.table);
  }

  /** The ticks that did not fail. */
  function Kept(plan: Plan, ticks: seq<ClockTick>): seq<ClockTick> {
    if ticks == [] then []
    else
      var before, tick := ticks[..|ticks| - 1], ticks[|ticks| - 1];
      Kept(plan, before) + if TickFails(plan, After(plan, before), tick) then [] else [tick]
  }

  function Dts(ticks: seq<ClockTick>): (dts: seq<real>)
    ensures |dts| == |ticks|
  {
    seq(|ticks|, i requires 0 <= i < |ticks| => ticks[i].dt)
  }

  /** The last start after ticks none of which fails. */
  function Latest(entries: seq<string>, ticks: seq<ClockTick>): string {
    if ticks == [] then ""
    else
      var tick := ticks[|ticks| - 1];
      DailyStep(entries, Latest(entries, ticks[..|ticks| - 1]), tick.hm, tick.date).1
  }

  /** FAILED TICKS. Over any run of an enabled event the stored fields are those of
      the ticks that did not fail: a tick that meets a missing row counts for
      nothing, neither its starts nor its time. */
  lemma {:induction false} FailedTicksLeaveNoTrace(plan: Plan, ticks: seq<ClockTick>)
    requires plan.isEnabled
    ensures After(plan, ticks).acc == Acc(plan.everySec, 0.0, Dts(Kept(plan, ticks)))
    ensures After(plan, ticks).last == Latest(plan.onceOfDay, Kept(plan, ticks))
  {
    if ticks != [] {
      var before, tick := ticks[..|ticks| - 1], ticks[|ticks| - 1];
      FailedTicksLeaveNoTrace(plan, before);
      var kept := Kept(plan, before);
      if TickFails(plan, After(plan, before), tick) {
        assert kept + [] == kept;
      } else {
        assert (kept + [tick])[..|kept|] == kept;
        assert Dts(kept + [tick])[..|kept|] == Dts(kept);
      }
    }
  }
}
