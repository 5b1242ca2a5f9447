/**
 Times of day over many days: an event of web/server/events_process.py lists
 minutes of the day as "HH:MM"; ticks come in order of time.
 */
module EventDays {
  import opened Basics
  import opened EventTimer

  const DAY := 1440

  type Minute = m: nat | m < DAY

  /** time.strftime('%H:%M'). */
  function HM(m: Minute): string {
    [Digit(m / 60 / 10), Digit(m / 60 % 10), ':', Digit(m % 60 / 10), Digit(m % 60 % 10)]
  }

  function DigitOf(c: char): int { c as int - '0' as int }

  /** Hours and minutes, two digits each. */
  lemma HMReads(m: Minute)
    ensures |HM(m)| == 5 && HM(m)[2] == ':'
    ensures
      var hours, minutes := 10 * DigitOf(HM(m)[0]) + DigitOf(HM(m)[1]), 10 * DigitOf(HM(m)[3]) + DigitOf(HM(m)[4]);
      0 <= hours < 24 && 0 <= minutes < 60 && 60 * hours + minutes == m
  {
    DigitReads(m / 60 / 10);
    DigitReads(m / 60 % 10);
    DigitReads(m % 60 / 10);
    DigitReads(m % 60 % 10);
  }

  lemma DigitReads(d: nat)
    requires d < 10
    ensures DigitOf(Digit(d)) == d
  {
  }

  lemma DigitInjective(a: nat, b: nat)
    requires a < 10 && b < 10 && Digit(a) == Digit(b)
    ensures a == b
  {
  }

  lemma HMInjective(a: Minute, b: Minute)
    ensures HM(a) == HM(b) <==> a == b
  {
    if HM(a) == HM(b) {
      assert HM(a)[0] == HM(b)[0] && HM(a)[1] == HM(b)[1] && HM(a)[3] == HM(b)[3] && HM(a)[4] == HM(b)[4];
      DigitInjective(a / 60 / 10, b / 60 / 10);
      DigitInjective(a / 60 % 10, b / 60 % 10);
      DigitInjective(a % 60 / 10, b % 60 / 10);
      DigitInjective(a % 60 % 10, b % 60 % 10);
    }
  }

  /** The event's list of times. */
  function Entries(minutes: seq<Minute>): (es: seq<string>)
    ensures |es| == |minutes| && forall i :: 0 <= i < |minutes| ==> es[i] == HM(minutes[i])
  {
    seq(|minutes|, i requires 0 <= i < |minutes| => HM(minutes[i]))
  }

  /** A tick by the minute it falls in, days counted from the first. */
  datatype Tick = Tick(day: nat, minute: Minute)

  predicate Before(a: Tick, b: Tick) {
    a.day < b.day || (a.day == b.day && a.minute < b.minute)
  }

  /** time.strftime('%Y-%m-%d %H:%M') of a tick: some text of 16 characters. */
  type Dates = Tick -> string

  ghost predicate DatesAreLong(date: Dates) {
    forall t: Tick :: |date(t)| == 16
  }

  /** timeLastStartOnceOfDay before tick k. */
  function Last(minutes: seq<Minute>, ticks: seq<Tick>, date: Dates, k: nat): string
    requires k <= |ticks|
  {
    if k == 0 then ""
    else DailyStep(Entries(minutes), Last(minutes, ticks, date, k - 1), HM(ticks[k - 1].minute), date(ticks[k - 1])).1
  }

  /** What tick k starts. */
  function StartsAt(minutes: seq<Minute>, ticks: seq<Tick>, date: Dates, k: nat): seq<string>
    requires k < |ticks|
  {
    DailyStep(Entries(minutes), Last(minutes, ticks, date, k), HM(ticks[k].minute), date(ticks[k])).0
  }

  function Occurrences(s: seq<string>, e: string): nat {
    if s == [] then 0 else (if s[0] == e then 1 else 0) + Occurrences(s[1..], e)
  }

  /** How often the first n ticks start entry m on day d. */
  function StartCount(minutes: seq<Minute>, ticks: seq<Tick>, date: Dates, n: nat, d: nat, m: Minute): nat
    requires n <= |ticks|
  {
    if n == 0 then 0
    else StartCount(minutes, ticks, date, n - 1, d, m)
         + if ticks[n - 1].day == d then Occurrences(StartsAt(minutes, ticks, date, n - 1), HM(m)) else 0
  }

  predicate InOrder(ticks: seq<Tick>) {
    forall i, j :: 0 <= i <= j < |ticks| ==> !Before(ticks[j], ticks[i])
  }

  /** Tick f is the first in its minute. */
  predicate IsFirst(ticks: seq<Tick>, f: nat) {
    f < |ticks| && forall i :: 0 <= i < |ticks| ==> (i < f <==> Before(ticks[i], ticks[f]))
  }

  /** Ticks in order, and at least one in each listed minute of each day. */
  ghost predicate Covers(minutes: seq<Minute>, ticks: seq<Tick>, days: nat) {
    && InOrder(ticks)
    && (forall d: nat, m :: d < days && m in minutes ==> Tick(d, m) in ticks)
  }

  // --------------------------------------------------------------- the last start

  /** One tick on a list of times of day: its own entry starts unless it was the last to start. */
  lemma {:induction false} TickStarts(entries: seq<string>, last: string, hm: string, date: string)
    requires date !in entries
    ensures DailyStep(entries, last, hm, date)
         == if hm in entries then (if last == hm then [] else [hm], hm) else ([], last)
  {
    if entries != [] {
      assert entries == [entries[0]] + entries[1..];
      assert [hm] + [] == [hm];
      TickStarts(entries[1..], last, hm, date);
      TickStarts(entries[1..], hm, hm, date);
    }
  }

  lemma EntryIff(minutes: seq<Minute>, m: Minute)
    ensures HM(m) in Entries(minutes) <==> m in minutes
  {
    if m in minutes {
      var i :| 0 <= i < |minutes| && minutes[i] == m;
      assert Entries(minutes)[i] == HM(m);
    }
    forall i | 0 <= i < |minutes| && Entries(minutes)[i] == HM(m) ensures m in minutes {
      HMInjective(minutes[i], m);
      assert minutes[i] in minutes;
    }
  }

  /** The latest tick before k that fell in a listed minute. */
  function Previous(minutes: seq<Minute>, ticks: seq<Tick>, k: nat): (p: Option<nat>)
    requires k <= |ticks|
    ensures p.Some? ==> p.value < k && ticks[p.value].minute in minutes
    ensures forall i :: 0 <= i < k && ticks[i].minute in minutes ==> p.Some? && i <= p.value
  {
    if k == 0 then None
    else if ticks[k - 1].minute in minutes then Some(k - 1)
    else Previous(minutes, ticks, k - 1)
  }

  lemma DateIsNoEntry(minutes: seq<Minute>, date: Dates, t: Tick)
    requires DatesAreLong(date)
    ensures date(t) !in Entries(minutes)
  {
    forall i | 0 <= i < |minutes| ensures Entries(minutes)[i] != date(t) {
      assert |HM(minutes[i])| == 5 && |date(t)| == 16;
    }
  }

  /** A tick in a listed minute makes it the last start, another tick changes nothing. */
  lemma LastStep(minutes: seq<Minute>, ticks: seq<Tick>, date: Dates, k: nat)
    requires k < |ticks| && DatesAreLong(date)
    ensures Last(minutes, ticks, date, k + 1)
         == if ticks[k].minute in minutes then HM(ticks[k].minute) else Last(minutes, ticks, date, k)
  {
    DateIsNoEntry(minutes, date, ticks[k]);
    EntryIff(minutes, ticks[k].minute);
    TickStarts(Entries(minutes), Last(minutes, ticks, date, k), HM(ticks[k].minute), date(ticks[k]));
  }

  lemma {:induction false} LastIsPrevious(minutes: seq<Minute>, ticks: seq<Tick>, date: Dates, k: nat)
    requires k <= |ticks| && DatesAreLong(date)
    ensures var p := Previous(minutes, ticks, k);
            Last(minutes, ticks, date, k) == if p == None then "" else HM(ticks[p.value].minute)
  {
    if k > 0 {
      LastIsPrevious(minutes, ticks, date, k - 1);
      LastStep(minutes, ticks, date, k - 1);
    }
  }

  /** Tick k starts its minute if that is listed and the previous listed tick was in another. */
  predicate Begins(minutes: seq<Minute>, ticks: seq<Tick>, k: nat)
    requires k < |ticks|
  {
    var p := Previous(minutes, ticks, k);
    ticks[k].minute in minutes && (p == None || ticks[p.value].minute != ticks[k].minute)
  }

  lemma StartsAtIs(minutes: seq<Minute>, ticks: seq<Tick>, date: Dates, k: nat)
    requires k < |ticks| && DatesAreLong(date)
    ensures StartsAt(minutes, ticks, date, k) == if Begins(minutes, ticks, k) then [HM(ticks[k].minute)] else []
  {
    LastIsPrevious(minutes, ticks, date, k);
    DateIsNoEntry(minutes, date, ticks[k]);
    EntryIff(minutes, ticks[k].minute);
    TickStarts(Entries(minutes), Last(minutes, ticks, date, k), HM(ticks[k].minute), date(ticks[k]));
    var p := Previous(minutes, ticks, k);
    if p.Some? { HMInjective(ticks[p.value].minute, ticks[k].minute); }
  }

  // -------------------------------------------------------------- once each day

  lemma FirstTickAt(ticks: seq<Tick>, t: Tick) returns (f: nat)
    requires t in ticks && InOrder(ticks)
    ensures IsFirst(ticks, f) && ticks[f] == t
  {
    f := 0;
    while ticks[f] != t
      invariant f < |ticks| && t in ticks[f..]
      invariant forall i :: 0 <= i < f ==> ticks[i] != t
      decreases |ticks| - f
    {
      assert ticks[f..] == [ticks[f]] + ticks[f + 1..];
      f := f + 1;
    }
  }

  lemma OccursAtMostOnce(s: string, e: string)
    ensures Occurrences([s], e) == if s == e then 1 else 0
    ensures Occurrences([], e) == 0
  {
    assert [s][1..] == [];
  }

  /** What tick k adds to the count of m on day d. */
  lemma CountStep(minutes: seq<Minute>, ticks: seq<Tick>, date: Dates, k: nat, d: nat, m: Minute)
    requires k < |ticks| && DatesAreLong(date)
    ensures StartCount(minutes, ticks, date, k + 1, d, m)
         == StartCount(minutes, ticks, date, k, d, m)
            + if ticks[k] == Tick(d, m) && Begins(minutes, ticks, k) then 1 else 0
  {
    StartsAtIs(minutes, ticks, date, k);
    OccursAtMostOnce(HM(ticks[k].minute), HM(m));
    HMInjective(ticks[k].minute, m);
  }

  /** A later tick in the minute of its first never begins it. */
  lemma OnlyFirstBegins(minutes: seq<Minute>, ticks: seq<Tick>, f: nat, k: nat)
    requires InOrder(ticks) && IsFirst(ticks, f) && f < k < |ticks| && ticks[k] == ticks[f]
    ensures !Begins(minutes, ticks, k)
  {
    assert !Before(ticks[k - 1], ticks[f]) && !Before(ticks[k], ticks[k - 1]);
    assert ticks[k - 1] == ticks[k];
  }

  /** Only the first tick in a minute can start it, so a day's count is that tick's. */
  lemma {:induction false} CountIsFirst(minutes: seq<Minute>, ticks: seq<Tick>, date: Dates, n: nat,
                                        d: nat, m: Minute, f: nat)
    requires n <= |ticks| && DatesAreLong(date) && f < |ticks| && m in minutes
    requires InOrder(ticks) && IsFirst(ticks, f) && ticks[f] == Tick(d, m)
    ensures StartCount(minutes, ticks, date, n, d, m) == if n > f && Begins(minutes, ticks, f) then 1 else 0
  {
    if n > 0 {
      var k := n - 1;
      CountIsFirst(minutes, ticks, date, k, d, m, f);
      CountStep(minutes, ticks, date, k, d, m);
      if ticks[k] == ticks[f] {
        if k > f { OnlyFirstBegins(minutes, ticks, f, k); }
        assert !(k < f);
      }
    }
  }

  /** Between two ticks in the same listed minute of different days lies one in any other listed minute. */
  lemma TickBetween(minutes: seq<Minute>, ticks: seq<Tick>, days: nat, p: nat, f: nat, other: Minute) returns (i: nat)
    requires Covers(minutes, ticks, days) && other in minutes && p < |ticks| && f < |ticks|
    requires ticks[p].day < ticks[f].day < days && ticks[p].minute == ticks[f].minute != other
    ensures p < i < f && ticks[i].minute == other
  {
    var between := Tick(if other > ticks[p].minute then ticks[p].day else ticks[p].day + 1, other);
    assert Before(ticks[p], between) && Before(between, ticks[f]);
    assert between in ticks;
    i :| 0 <= i < |ticks| && ticks[i] == between;
  }

  /** With another entry listed, its tick since the last listed start of m frees m again. */
  lemma OtherEntryFrees(minutes: seq<Minute>, ticks: seq<Tick>, days: nat, d: nat, m: Minute, other: Minute, f: nat)
    requires Covers(minutes, ticks, days) && d < days && m in minutes && other in minutes && other != m
    requires IsFirst(ticks, f) && ticks[f] == Tick(d, m)
    ensures Begins(minutes, ticks, f)
  {
    var p := Previous(minutes, ticks, f);
    if p.Some? && ticks[p.value].minute == m {
      var i := TickBetween(minutes, ticks, days, p.value, f, other);
    }
  }

  /** With m the only entry, every listed tick is at m: only the first of all starts it. */
  lemma AloneStartsOnce(minutes: seq<Minute>, ticks: seq<Tick>, days: nat, d: nat, m: Minute, f: nat)
    requires Covers(minutes, ticks, days) && d < days && m in minutes && forall x :: x in minutes ==> x == m
    requires IsFirst(ticks, f) && ticks[f] == Tick(d, m)
    ensures Begins(minutes, ticks, f) <==> d == 0
  {
    if d > 0 {
      assert Tick(0, m) in ticks;
      var i :| 0 <= i < |ticks| && ticks[i] == Tick(0, m);
      assert i < f && ticks[i].minute in minutes;
    }
  }

  ghost predicate EachOncePerDay(minutes: seq<Minute>, ticks: seq<Tick>, date: Dates, days: nat) {
    forall d: nat, m :: d < days && m in minutes ==> StartCount(minutes, ticks, date, |ticks|, d, m) == 1
  }

  /** DAILY STARTS, exactly. Over any number of days, however many ticks fall in a
      minute, every listed time starts exactly once on every day if and only if
      there is at most one day to look at, no time listed, or two different times listed. */
  lemma EachOncePerDayIff(minutes: seq<Minute>, ticks: seq<Tick>, date: Dates, days: nat)
    requires Covers(minutes, ticks, days) && DatesAreLong(date)
    ensures EachOncePerDay(minutes, ticks, date, days)
       <==> days <= 1 || |minutes| == 0 || exists i, j :: 0 <= i < j < |minutes| && minutes[i] != minutes[j]
  {
    var several := exists i, j :: 0 <= i < j < |minutes| && minutes[i] != minutes[j];
    forall d: nat, m | d < days && m in minutes
      ensures StartCount(minutes, ticks, date, |ticks|, d, m) == if several || d == 0 then 1 else 0
    {
      var f := FirstTickAt(ticks, Tick(d, m));
      CountIsFirst(minutes, ticks, date, |ticks|, d, m, f);
      if several {
        var i, j :| 0 <= i < j < |minutes| && minutes[i] != minutes[j];
        OtherEntryFrees(minutes, ticks, days, d, m, if minutes[i] == m then minutes[j] else minutes[i], f);
      } else {
        AllTheSame(minutes, m);
        AloneStartsOnce(minutes, ticks, days, d, m, f);
      }
    }
    if days > 1 && |minutes| > 0 && !several {
      assert minutes[0] in minutes;
      assert StartCount(minutes, ticks, date, |ticks|, 1, minutes[0]) == 0;
    }
  }

  lemma AllTheSame(minutes: seq<Minute>, m: Minute)
    requires m in minutes && !(exists i, j :: 0 <= i < j < |minutes| && minutes[i] != minutes[j])
    ensures forall x :: x in minutes ==> x == m
  {
    var k :| 0 <= k < |minutes| && minutes[k] == m;
    forall i | 0 <= i < |minutes| ensures minutes[i] == m {
      if i < k { assert !(minutes[i] != minutes[k]); }
      if k < i { assert !(minutes[k] != minutes[i]); }
    }
  }
}
