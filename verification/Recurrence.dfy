/**
 Expansion of a recurrence rule into dated occurrences.  Dates are day numbers
 of the Gregorian calendar; the specification scans every day of the year that
 starts at the anchor, the program steps by days or by months.
 */
module Recurrence {
  import opened Prelude
  import opened LocalTime
  import opened Calendar

  datatype Frequency = Daily | Weekly | Monthly | OtherFrequency

  /** `weekdays` holds the looked-up codes; an unknown code is `None`. */
  datatype Rule = Rule(
    frequency: Frequency, interval: int, count: Option<int>, until: Option<DateText>,
    weekdays: seq<Option<nat>>, exdates: seq<DateText>)

  datatype Request = Request(
    startAt: int, endAt: Option<int>, allDay: bool,
    startDate: Option<DateText>, endDate: Option<DateText>,
    zone: Option<Zone>, rule: Rule, startFold: Fold, endFold: Fold)

  datatype Occurrence = Occurrence(
    index: nat, day: nat, startAt: int, endAt: Option<int>,
    allDay: bool, startDate: Option<nat>, endDate: Option<nat>, localStart: int)

  datatype Failure = BadRule | BadOccurrence | BadCount

  /** The validated rule, read from its anchor day. */
  datatype Plan = Plan(
    frequency: Frequency, interval: nat, weekdays: set<nat>, anchor: nat, exdates: set<nat>)

  function Same(n: nat): int { n }

  // ---------- What the rule means ----------

  /** Day `n` is one the rule repeats on. */
  ghost predicate Matches(p: Plan, n: nat) {
    && p.interval > 0 && p.anchor <= n
    && match p.frequency
       case Daily => (n - p.anchor) % p.interval == 0
       case Weekly =>
         (WeekIndex(n) - WeekIndex(p.anchor)) % p.interval == 0 && Weekday(n) in p.weekdays
       case Monthly =>
         (MonthOf(n) - MonthOf(p.anchor)) % p.interval == 0 &&
         DayOfMonth(n) == DayOfMonth(p.anchor)
       case OtherFrequency => false
  }

  ghost function On(p: Plan): nat -> bool {
    (n: nat) => Matches(p, n)
  }

  /** The days that satisfy `on` among the `len` days from `start`, in order. */
  ghost function Scan(on: nat -> bool, start: nat, len: nat): seq<nat> {
    if len == 0 then []
    else Scan(on, start, len - 1) + if on(start + len - 1) then [start + len - 1] else []
  }

  function Without(s: seq<nat>, ex: set<nat>): seq<nat> {
    if s == [] then []
    else Without(s[..|s| - 1], ex) + if s[|s| - 1] in ex then [] else [s[|s| - 1]]
  }

  function First(s: seq<nat>, count: Option<nat>): seq<nat> {
    if count.Some? && count.value < |s| then s[..count.value] else s
  }

  /** The dates the rule asks for, when it may run up to day `limit`. */
  ghost function Chosen(
    on: nat -> bool, ex: set<nat>, start: nat, limit: nat, count: Option<nat>): seq<nat>
    requires start <= limit
  {
    First(Without(Scan(on, start, limit - start + 1), ex), count)
  }

  lemma {:induction false} ScanIsExact(on: nat -> bool, start: nat, len: nat)
    ensures Ascending(Scan(on, start, len), Same)
    ensures forall n: nat :: n in Scan(on, start, len) <==> start <= n < start + len && on(n)
  {
    if len > 0 {
      ScanIsExact(on, start, len - 1);
      var s := Scan(on, start, len - 1);
      forall i | 0 <= i < |s|
        ensures s[i] < start + len - 1
      {
        assert s[i] in s;
      }
    }
  }

  lemma {:induction false} WithoutIsExact(s: seq<nat>, ex: set<nat>)
    requires Ascending(s, Same)
    ensures Ascending(Without(s, ex), Same)
    ensures forall n: nat :: n in Without(s, ex) <==> n in s && n !in ex
  {
    if s != [] {
      var t, last := s[..|s| - 1], s[|s| - 1];
      WithoutIsExact(t, ex);
      assert s == t + [last];
      var w := Without(t, ex);
      forall i | 0 <= i < |w|
        ensures w[i] < last
      {
        assert w[i] in w;
        var j :| 0 <= j < |t| && t[j] == w[i];
        assert Same(s[j]) < Same(s[|s| - 1]);
      }
    }
  }

  lemma FirstIsPrefix(all: seq<nat>, count: Option<nat>)
    requires Ascending(all, Same)
    requires count.Some? ==> count.value > 0
    ensures var days := First(all, count);
      && Ascending(days, Same)
      && (count.Some? ==> |days| <= count.value)
      && (forall n: nat :: n in days ==> n in all)
      && (forall n: nat :: n in all && n !in days ==>
            count.Some? && |days| == count.value && days[|days| - 1] < n)
  {
    var days := First(all, count);
    forall n: nat | n in all && n !in days
      ensures count.Some? && |days| == count.value && days[|days| - 1] < n
    {
      var k :| 0 <= k < |all| && all[k] == n;
      assert forall i :: 0 <= i < |days| ==> all[i] == days[i] && all[i] != n;
      assert Same(all[|days| - 1]) < Same(all[k]);
    }
  }

  /** A date in the window that satisfies `on` and is not excluded. */
  ghost predicate Admissible(on: nat -> bool, ex: set<nat>, start: nat, limit: nat, n: nat) {
    start <= n <= limit && on(n) && n !in ex
  }

  /** Scanning and excluding finds exactly the admissible dates, in order. */
  lemma AllAdmissible(on: nat -> bool, ex: set<nat>, start: nat, limit: nat)
    requires start <= limit
    ensures var all := Without(Scan(on, start, limit - start + 1), ex);
      && Ascending(all, Same)
      && forall n: nat :: n in all <==> Admissible(on, ex, start, limit, n)
  {
    var len := limit - start + 1;
    ScanIsExact(on, start, len);
    WithoutIsExact(Scan(on, start, len), ex);
  }

  /** The chosen dates ascend, are admissible, and leave out an admissible date
      only when the count is used up by earlier ones. */
  lemma ChosenAreFirstAdmissible(
    on: nat -> bool, ex: set<nat>, start: nat, limit: nat, count: Option<nat>)
    requires start <= limit
    requires count.Some? ==> count.value > 0
    ensures var days := Chosen(on, ex, start, limit, count);
      && Ascending(days, Same)
      && (count.Some? ==> |days| <= count.value)
      && (forall n: nat :: n in days ==> Admissible(on, ex, start, limit, n))
      && (forall n: nat :: Admissible(on, ex, start, limit, n) && n !in days ==>
            count.Some? && |days| == count.value && days[|days| - 1] < n)
  {
    AllAdmissible(on, ex, start, limit);
    FirstIsPrefix(Without(Scan(on, start, limit - start + 1), ex), count);
  }

  // ---------- Daily and weekly rules: one step per day ----------

  /** recurrenceMatches for the rules that step by days, with Go's arithmetic on
      the two Mondays. */
  predicate RecurrenceMatches(p: Plan, n: nat)
    requires p.interval > 0 && p.anchor <= n
  {
    match p.frequency
    case Daily => (n - p.anchor) % p.interval == 0
    case Weekly =>
      ((n - SinceMonday(n)) - (p.anchor - SinceMonday(p.anchor))) / 7 % p.interval == 0
      && Weekday(n) in p.weekdays
    case _ => false
  }

  lemma MatchesAgree(p: Plan, n: nat)
    requires p.interval > 0 && p.anchor <= n && p.frequency in {Daily, Weekly}
    ensures RecurrenceMatches(p, n) <==> On(p)(n)
  {
    MondaysApart(p.anchor, n);
  }

  /** The last day the rule may reach. */
  function Limit(maxDate: nat, until: Option<nat>): (r: nat) {
    if until.Some? && until.value < maxDate then until.value else maxDate
  }

  /** The day loop.  Its fixed bound of 366 never cuts off a matching day. */
  method DayCandidates(p: Plan, maxDate: nat, until: Option<nat>, ghost on: nat -> bool)
    returns (candidates: seq<nat>)
    requires p.interval > 0
    requires forall n: nat | p.anchor <= n :: RecurrenceMatches(p, n) <==> on(n)
    requires p.anchor <= maxDate <= p.anchor + 366
    requires until.Some? ==> p.anchor <= until.value
    ensures candidates == Scan(on, p.anchor, Limit(maxDate, until) - p.anchor + 1)
  {
    candidates := [];
    ghost var limit := Limit(maxDate, until);
    var offset := 0;
    while offset <= 366
      invariant 0 <= offset <= limit - p.anchor + 1
      invariant candidates == Scan(on, p.anchor, offset)
    {
      var candidate := p.anchor + offset;
      if candidate > maxDate || (until.Some? && candidate > until.value) {
        break;
      }
      assert RecurrenceMatches(p, candidate) <==> on(candidate);
      if RecurrenceMatches(p, candidate) {
        candidates := candidates + [candidate];
      }
      offset := offset + 1;
    }
  }

  // ---------- Monthly rules: one step per month ----------

  lemma MulBound(a: int, d: int)
    requires d >= 0
    ensures a >= 1 ==> a * d >= d
    ensures a <= -1 ==> a * d <= -d
  {
  }

  lemma ModUnique(q: int, m: nat, d: nat)
    requires m < d
    ensures (q * d + m) % d == m
  {
    var x := q * d + m;
    assert x == (x / d) * d + x % d;
    assert (q - x / d) * d == x % d - m;
    MulBound(q - x / d, d);
  }

  lemma MultipleStep(offset: nat, x: nat, interval: nat)
    requires interval > 0 && offset % interval == 0 && offset <= x <= offset + interval
    ensures x % interval == 0 <==> x == offset || x == offset + interval
  {
    var q := offset / interval;
    assert offset == q * interval;
    if x < offset + interval {
      ModUnique(q, x - offset, interval);
    } else {
      assert x == (q + 1) * interval + 0;
      ModUnique(q + 1, 0, interval);
    }
  }

  /** The lists `f(0)`, `f(1)`, ... up to `n` of them, one after the other. */
  ghost function Gather(f: nat -> seq<nat>, n: nat): seq<nat> {
    if n == 0 then [] else Gather(f, n - 1) + f(n - 1)
  }

  /** The last days of the months, among the `upto` months from the anchor's,
      that the rule lands on and that are too short for the anchor's day. */
  ghost function ShortMonths(p: Plan, upto: nat): seq<nat>
    requires p.interval > 0
  {
    Gather(ShortMonthAt(p), upto)
  }

  ghost function ShortMonthAt(p: Plan): nat -> seq<nat>
    requires p.interval > 0
  {
    (i: nat) => ShortMonth(p, i)
  }

  ghost function ShortMonth(p: Plan, offset: nat): seq<nat>
    requires p.interval > 0
  {
    var k := MonthOf(p.anchor) + offset;
    if offset % p.interval == 0 && Length(k) < DayOfMonth(p.anchor)
    then [FirstOf(k) + Length(k) - 1] else []
  }

  lemma {:induction false} ShortMonthsSkip(p: Plan, offset: nat, upto: nat)
    requires p.interval > 0 && offset % p.interval == 0
    requires offset < upto <= offset + p.interval
    ensures ShortMonths(p, upto) == ShortMonths(p, offset + 1)
  {
    if offset + 1 < upto {
      ShortMonthsSkip(p, offset, upto - 1);
      MultipleStep(offset, upto - 1, p.interval);
      assert ShortMonth(p, upto - 1) == [];
    }
  }

  /** `n` is a matching day of one of the `upto` months from the anchor's. */
  ghost predicate Reached(p: Plan, limit: nat, upto: nat, n: nat) {
    n <= limit && Matches(p, n) && MonthOf(n) < MonthOf(p.anchor) + upto
  }

  lemma AnchorMonthFirst(a: nat, n: nat)
    requires a <= n
    ensures MonthOf(a) <= MonthOf(n)
  {
    if MonthOf(n) < MonthOf(a) {
      MonthsAscend(MonthOf(n), MonthOf(a));
    }
  }

  lemma ThatDayMatches(p: Plan, offset: nat, n: nat, k: nat, d: nat)
    requires p.interval > 0 && p.frequency == Monthly && offset % p.interval == 0
    requires k == MonthOf(p.anchor) + offset && d == DayOfMonth(p.anchor)
    requires p.anchor <= n && d <= Length(k) && n == FirstOf(k) + d - 1
    ensures Matches(p, n) && MonthOf(n) == k
  {
    MonthUnique(n, k);
  }

  lemma MatchIsThatDay(p: Plan, n: nat, k: nat, d: nat)
    requires p.frequency == Monthly && Matches(p, n) && MonthOf(n) == k
    requires d == DayOfMonth(p.anchor)
    ensures p.anchor <= n && d <= Length(k) && n == FirstOf(k) + d - 1
  {
    assert DayOfMonth(n) == d;
  }

  /** The matching day of the month `offset` months after the anchor's. */
  lemma DayInMonth(p: Plan, offset: nat, n: nat)
    requires p.interval > 0 && p.frequency == Monthly && offset % p.interval == 0
    ensures var k, d := MonthOf(p.anchor) + offset, DayOfMonth(p.anchor);
      Matches(p, n) && MonthOf(n) == k <==>
        p.anchor <= n && d <= Length(k) && n == FirstOf(k) + d - 1
  {
    var k, d := MonthOf(p.anchor) + offset, DayOfMonth(p.anchor);
    if p.anchor <= n && d <= Length(k) && n == FirstOf(k) + d - 1 {
      ThatDayMatches(p, offset, n, k, d);
    } else if Matches(p, n) && MonthOf(n) == k {
      MatchIsThatDay(p, n, k, d);
    }
  }

  /** What one turn of the month loop adds to the reached days. */
  lemma MonthTurn(p: Plan, limit: nat, offset: nat, n: nat)
    requires p.interval > 0 && p.frequency == Monthly && offset % p.interval == 0
    ensures Reached(p, limit, offset + p.interval, n) <==>
      || Reached(p, limit, offset, n)
      || (n <= limit && Matches(p, n) && MonthOf(n) == MonthOf(p.anchor) + offset)
  {
    if p.anchor <= n {
      AnchorMonthFirst(p.anchor, n);
      var x := MonthOf(n) - MonthOf(p.anchor);
      if offset <= x < offset + p.interval {
        MultipleStep(offset, x, p.interval);
      }
    }
  }

  /** A month within a year of the anchor keeps its matching day in the year. */
  lemma WithinTheYear(a: nat, k: nat)
    requires MonthOf(a) <= k <= MonthOf(a) + 12
    ensures FirstOf(k) + DayOfMonth(a) - 1 <= AddYear(a)
    ensures k > MonthOf(a) ==> a < FirstOf(k)
  {
    if k < MonthOf(a) + 12 {
      MonthsAscend(k, MonthOf(a) + 12);
    }
    if k > MonthOf(a) {
      MonthsAscend(MonthOf(a), k);
    }
  }

  /** The anchor's day of the month `offset` months on is not after `maxDate`. */
  ghost predicate DayBy(p: Plan, maxDate: nat, offset: nat) {
    FirstOf(MonthOf(p.anchor) + offset) + DayOfMonth(p.anchor) - 1 <= maxDate
  }

  /** So it is for all twelve months. */
  ghost predicate YearBy(p: Plan, maxDate: nat) {
    forall offset: nat | offset <= 12 :: DayBy(p, maxDate, offset)
  }

  lemma YearEnds(p: Plan)
    ensures YearBy(p, AddYear(p.anchor))
  {
    forall offset: nat | offset <= 12
      ensures DayBy(p, AddYear(p.anchor), offset)
    {
      WithinTheYear(p.anchor, MonthOf(p.anchor) + offset);
    }
  }

  /** Nothing is left to reach once the month starts beyond the limit. */
  lemma NothingBeyond(p: Plan, limit: nat, offset: nat, n: nat)
    requires p.frequency == Monthly && n <= limit <= AddYear(p.anchor) && Matches(p, n)
    requires offset > 12 || FirstOf(MonthOf(p.anchor) + offset) > limit
    ensures MonthOf(n) < MonthOf(p.anchor) + offset
  {
    var m := MonthOf(p.anchor);
    if MonthOf(n) >= m + offset {
      if offset > 12 {
        MonthsAscend(m + 12, MonthOf(n));
      } else if MonthOf(n) > m + offset {
        MonthsAscend(m + offset, MonthOf(n));
      }
    }
  }

  lemma NothingBefore(p: Plan, limit: nat)
    ensures forall n: nat :: !Reached(p, limit, 0, n)
  {
    forall n: nat | Matches(p, n)
      ensures MonthOf(n) >= MonthOf(p.anchor)
    {
      AnchorMonthFirst(p.anchor, n);
    }
  }

  /** One turn of the month loop extends what is reached by one step. */
  lemma TurnReaches(
    p: Plan, maxDate: nat, until: Option<nat>, offset: nat, before: seq<nat>, after: seq<nat>)
    requires p.interval > 0 && p.frequency == Monthly && offset % p.interval == 0 && offset <= 12
    requires DayBy(p, maxDate, offset)
    requires forall n: nat :: n in before <==> Reached(p, Limit(maxDate, until), offset, n)
    requires var k, d := MonthOf(p.anchor) + offset, DayOfMonth(p.anchor);
      var n := FirstOf(k) + d - 1;
      after == before +
        if d <= Length(k) && n >= p.anchor && (until.None? || n <= until.value) then [n] else []
    ensures forall n: nat :: n in after <==>
      Reached(p, Limit(maxDate, until), offset + p.interval, n)
  {
    forall n: nat
      ensures n in after <==> Reached(p, Limit(maxDate, until), offset + p.interval, n)
    {
      MonthTurn(p, Limit(maxDate, until), offset, n);
      DayInMonth(p, offset, n);
    }
  }

  /** The list holds the days reached, in order. */
  ghost predicate Reaches(p: Plan, limit: nat, offset: nat, s: seq<nat>) {
    Ascending(s, Same) && forall n: nat :: n in s <==> Reached(p, limit, offset, n)
  }

  lemma ShortMonthsStep(p: Plan, offset: nat)
    requires p.interval > 0 && offset % p.interval == 0
    ensures ShortMonths(p, offset + p.interval) == ShortMonths(p, offset) + ShortMonth(p, offset)
  {
    ShortMonthsSkip(p, offset, offset + p.interval);
  }

  /** One turn of the month loop. */
  method MonthStep(
    p: Plan, maxDate: nat, until: Option<nat>, offset: nat, before: seq<nat>, short: seq<nat>)
    returns (candidates: seq<nat>, skipped: seq<nat>)
    requires p.interval > 0 && p.frequency == Monthly && offset % p.interval == 0 && offset <= 12
    requires DayBy(p, maxDate, offset)
    requires Reaches(p, Limit(maxDate, until), offset, before)
    ensures skipped == short + ShortMonth(p, offset)
    ensures Reaches(p, Limit(maxDate, until), offset + p.interval, candidates)
  {
    candidates, skipped := before, short;
    var k, d := MonthOf(p.anchor) + offset, DayOfMonth(p.anchor);
    var monthStart, lastDay := FirstOf(k), Length(k);
    if d > lastDay {
      skipped := skipped + [monthStart + lastDay - 1];
    } else {
      var candidate := monthStart + d - 1;
      if candidate >= p.anchor && (until.None? || candidate <= until.value) {
        AppendKeepsOrder(p, Limit(maxDate, until), offset, before, candidate);
        candidates := candidates + [candidate];
      }
    }
    TurnReaches(p, maxDate, until, offset, before, candidates);
  }

  /** The month starts after the limit. */
  ghost predicate Beyond(p: Plan, limit: nat, offset: nat) {
    FirstOf(MonthOf(p.anchor) + offset) > limit
  }

  method StartsBeyond(p: Plan, maxDate: nat, until: Option<nat>, offset: nat)
    returns (beyond: bool)
    ensures beyond == Beyond(p, Limit(maxDate, until), offset)
  {
    var monthStart := FirstOf(MonthOf(p.anchor) + offset);
    beyond := monthStart > maxDate || (until.Some? && monthStart > until.value);
  }

  /** `offset` is reached from 0 in steps of `interval`. */
  ghost predicate OnStep(offset: nat, interval: nat)
    requires interval > 0
  {
    offset == 0 || (offset >= interval && OnStep(offset - interval, interval))
  }

  lemma {:induction false} OnStepDivides(offset: nat, interval: nat)
    requires interval > 0 && OnStep(offset, interval)
    ensures offset % interval == 0
  {
    if offset > 0 {
      OnStepDivides(offset - interval, interval);
      MultipleStep(offset - interval, offset, interval);
    }
  }

  lemma NothingYet(p: Plan, limit: nat, offset: nat)
    requires p.interval > 0 && offset == 0
    ensures Looped(p, limit, offset, [], [])
  {
    NothingBefore(p, limit);
  }

  /** The loop so far: the days reached and the months too short. */
  ghost predicate Looped(
    p: Plan, limit: nat, offset: nat, candidates: seq<nat>, skipped: seq<nat>)
    requires p.interval > 0
  {
    && OnStep(offset, p.interval) && skipped == ShortMonths(p, offset)
    && Reaches(p, limit, offset, candidates)
  }

  /** One turn, with the records so far. */
  method MonthLoopTurn(
    p: Plan, maxDate: nat, until: Option<nat>, offset: nat, before: seq<nat>, short: seq<nat>,
    ghost limit: nat)
    returns (candidates: seq<nat>, skipped: seq<nat>)
    requires p.interval > 0 && p.frequency == Monthly && offset <= 12
    requires YearBy(p, maxDate) && limit == Limit(maxDate, until)
    requires Looped(p, limit, offset, before, short)
    ensures Looped(p, limit, offset + p.interval, candidates, skipped)
  {
    OnStepDivides(offset, p.interval);
    assert DayBy(p, maxDate, offset);
    candidates, skipped := MonthStep(p, maxDate, until, offset, before, short);
    ShortMonthsStep(p, offset);
  }

  /** The month loop reaches every matching day up to the limit, in order, and
      records each month that is too short. */
  method MonthLoop(p: Plan, maxDate: nat, until: Option<nat>)
    returns (candidates: seq<nat>, skipped: seq<nat>, ghost upto: nat)
    requires p.interval > 0 && p.frequency == Monthly && YearBy(p, maxDate)
    ensures Looped(p, Limit(maxDate, until), upto, candidates, skipped)
    ensures upto > 12 || Beyond(p, Limit(maxDate, until), upto)
  {
    candidates, skipped := [], [];
    var offset := 0;
    ghost var limit := Limit(maxDate, until);
    NothingYet(p, limit, offset);
    while offset <= 12
      invariant Looped(p, limit, offset, candidates, skipped)
      decreases 13 - offset
    {
      var beyond := StartsBeyond(p, maxDate, until, offset);
      if beyond {
        break;
      }
      candidates, skipped := MonthLoopTurn(p, maxDate, until, offset, candidates, skipped, limit);
      offset := offset + p.interval;
    }
    upto := offset;
  }

  lemma AppendKeepsOrder(p: Plan, limit: nat, offset: nat, s: seq<nat>, n: nat)
    requires Ascending(s, Same) && forall x: nat :: x in s ==> Reached(p, limit, offset, x)
    requires FirstOf(MonthOf(p.anchor) + offset) <= n
    ensures Ascending(s + [n], Same)
  {
    forall i | 0 <= i < |s|
      ensures s[i] < n
    {
      assert s[i] in s;
      MonthsAscend(MonthOf(s[i]), MonthOf(p.anchor) + offset);
    }
  }

  /** Stepping by months finds exactly what scanning every day finds. */
  lemma MonthsEqualScan(p: Plan, limit: nat, upto: nat, candidates: seq<nat>)
    requires p.frequency == Monthly && p.anchor <= limit <= AddYear(p.anchor)
    requires Reaches(p, limit, upto, candidates) && (upto > 12 || Beyond(p, limit, upto))
    ensures candidates == Scan(On(p), p.anchor, limit - p.anchor + 1)
  {
    var len := limit - p.anchor + 1;
    ScanIsExact(On(p), p.anchor, len);
    forall n: nat
      ensures n in candidates <==> n in Scan(On(p), p.anchor, len)
    {
      ReachedIsScanned(p, limit, upto, n);
    }
    AscendingUnique(candidates, Scan(On(p), p.anchor, len), Same);
  }

  lemma ReachedIsScanned(p: Plan, limit: nat, upto: nat, n: nat)
    requires p.frequency == Monthly && p.anchor <= limit <= AddYear(p.anchor)
    requires upto > 12 || Beyond(p, limit, upto)
    ensures Reached(p, limit, upto, n) <==> p.anchor <= n < p.anchor + (limit - p.anchor + 1) && On(p)(n)
  {
    if n <= limit && Matches(p, n) {
      NothingBeyond(p, limit, upto, n);
    }
  }

  // ---------- The request, validated ----------

  function LocalClock(z: Zone, t: int): int { Sec(LocalNs(z, t)) % DAY }

  /** The first date: the given all-day date, or the local date of the start. */
  function AnchorDay(q: Request, z: Zone): int {
    if q.allDay && q.startDate.Some? && q.startDate.value.IsoDate? then q.startDate.value.day
    else LocalDay(z, q.startAt)
  }

  predicate ValidSpan(q: Request) {
    q.allDay ==>
      && q.startDate.Some? && q.startDate.value.IsoDate?
      && q.endDate.Some? && q.endDate.value.IsoDate?
      && q.startDate.value.day < q.endDate.value.day <= q.startDate.value.day + 366
  }

  predicate ValidRule(r: Rule) {
    && r.frequency != OtherFrequency && 1 <= r.interval <= 30
    && (r.count.None? <==> r.until.Some?)
    && (r.count.Some? ==> 1 <= r.count.value <= 100)
    && |r.exdates| <= 100
    && (r.frequency != Weekly ==> r.weekdays == [])
  }

  ghost predicate ValidLists(r: Rule) {
    && (forall i | 0 <= i < |r.weekdays| :: r.weekdays[i].Some?) && Distinct(r.weekdays)
    && (forall i | 0 <= i < |r.exdates| :: r.exdates[i].IsoDate?)
  }

  predicate ValidUntil(q: Request, anchor: nat) {
    q.rule.until.Some? ==>
      q.rule.until.value.IsoDate? && anchor <= q.rule.until.value.day <= AddYear(anchor)
  }

  /** The wall-clock length of one occurrence, in nanoseconds. */
  function WallDuration(q: Request, z: Zone): int
    requires q.endAt.Some?
  {
    LocalNs(z, q.endAt.value) - LocalNs(z, q.startAt)
  }

  ghost predicate ValidRequest(q: Request, z: Zone)
    requires LocalNs(z, q.startAt) >= 0
  {
    && ValidRule(q.rule) && ValidLists(q.rule) && ValidSpan(q)
    && ValidUntil(q, AnchorDay(q, z))
    && (q.endAt.Some? ==> WallDuration(q, z) >= 1_000_000)
  }

  ghost function PlanOf(q: Request, z: Zone): Plan
    requires LocalNs(z, q.startAt) >= 0 && q.rule.interval >= 0
  {
    var given := set c | c in q.rule.weekdays && c.Some? :: c.value;
    Plan(
      q.rule.frequency, q.rule.interval,
      if q.rule.frequency == Weekly && q.rule.weekdays == [] then {Weekday(LocalDay(z, q.startAt))}
      else given,
      AnchorDay(q, z), set x | x in q.rule.exdates && x.IsoDate? :: x.day)
  }

  function UntilDay(q: Request): Option<nat> {
    if q.rule.until.Some? && q.rule.until.value.IsoDate? then Some(q.rule.until.value.day) else None
  }

  function Count(q: Request): Option<nat> {
    if q.rule.count.Some? && q.rule.count.value > 0 then Some(q.rule.count.value) else None
  }

  /** The dates a valid request asks for. */
  ghost function Wanted(q: Request, z: Zone): seq<nat>
    requires LocalNs(z, q.startAt) >= 0 && ValidRequest(q, z)
  {
    var p := PlanOf(q, z);
    YearSpan(p.anchor);
    Chosen(On(p), p.exdates, p.anchor, Limit(AddYear(p.anchor), UntilDay(q)), Count(q))
  }

  /** Weekday codes must be known and unique. */
  method WeekdaySet(codes: seq<Option<nat>>) returns (r: Option<set<nat>>)
    ensures r.Some? <==> (forall i | 0 <= i < |codes| :: codes[i].Some?) && Distinct(codes)
    ensures r.Some? ==> r.value == set c | c in codes && c.Some? :: c.value
  {
    var found: set<nat> := {};
    for i := 0 to |codes|
      invariant forall k | 0 <= k < i :: codes[k].Some?
      invariant Distinct(codes[..i])
      invariant forall w: nat :: w in found <==> Some(w) in codes[..i]
    {
      if codes[i].None? || codes[i].value in found {
        if codes[i].Some? {
          var k :| 0 <= k < i && codes[..i][k] == codes[i];
          assert codes[k] == codes[i];
        }
        return None;
      }
      assert codes[i] == Some(codes[i].value);
      found := found + {codes[i].value};
      assert codes[..i + 1] == codes[..i] + [codes[i]];
    }
    assert codes[..|codes|] == codes;
    return Some(found);
  }

  /** Excluded dates must parse. */
  method ExdateSet(texts: seq<DateText>) returns (r: Option<set<nat>>)
    ensures r.Some? <==> forall i | 0 <= i < |texts| :: texts[i].IsoDate?
    ensures r.Some? ==> r.value == set x | x in texts && x.IsoDate? :: x.day
  {
    var found: set<nat> := {};
    for i := 0 to |texts|
      invariant forall k | 0 <= k < i :: texts[k].IsoDate?
      invariant forall n: nat :: n in found <==> IsoDate(n) in texts[..i]
    {
      if texts[i].NotADate? {
        return None;
      }
      found := found + {texts[i].day};
      assert texts[..i + 1] == texts[..i] + [texts[i]];
    }
    assert texts[..|texts|] == texts;
    return Some(found);
  }

  // ---------- One date becomes one occurrence ----------

  /** The local reading at which the occurrence on day `n` starts and ends. */
  function StartWall(q: Request, z: Zone, n: nat): int { n * DAY + LocalClock(z, q.startAt) }

  function EndWall(q: Request, z: Zone, n: nat): int
    requires q.endAt.Some?
  {
    Sec(Ns(StartWall(q, z, n)) + WallDuration(q, z))
  }

  ghost predicate Answers(z: Zone, wall: int, fold: Fold, t: int) {
    ResolvesLoosely(Candidates(z, wall), fold, Ok(At(t)))
  }

  function Span(q: Request): nat
    requires q.allDay && ValidSpan(q)
  {
    q.endDate.value.day - q.startDate.value.day
  }

  /** `start` and `finish`, in seconds, answer the two wall readings. */
  ghost predicate TimedAt(
    z: Zone, startWall: int, startFold: Fold, endWall: Option<int>, endFold: Fold,
    start: int, finish: Option<int>)
  {
    && Answers(z, startWall, startFold, start)
    && (endWall.Some? <==> finish.Some?)
    && (finish.Some? ==> Answers(z, endWall.value, endFold, finish.value) && start < finish.value)
  }

  /** They are the instants of the timed occurrence on day `n`. */
  ghost predicate Timed(q: Request, z: Zone, n: nat, start: int, finish: Option<int>) {
    TimedAt(
      z, StartWall(q, z, n), q.startFold,
      if q.endAt.Some? then Some(EndWall(q, z, n)) else None, q.endFold, start, finish)
  }

  ghost predicate Realizable(q: Request, z: Zone, n: nat) {
    q.allDay || exists start, finish :: Timed(q, z, n, start, finish)
  }

  function Seconds(t: Option<int>): Option<int> {
    if t.Some? then Some(Sec(t.value)) else None
  }

  /** `o` is occurrence number `i`, on day `n`. */
  ghost predicate Realizes(q: Request, z: Zone, n: nat, i: nat, o: Occurrence)
    requires ValidSpan(q)
  {
    && o.index == i && o.day == n && o.allDay == q.allDay
    && if q.allDay then
         && o.startDate == Some(n) && o.endDate == Some(n + Span(q))
         && o.startAt == Ns(z.midnight(n)) && o.endAt == Some(Ns(z.midnight(n + Span(q))))
         && o.localStart == n * DAY
       else
         && o.startDate == None && o.endDate == None
         && o.localStart == StartWall(q, z, n)
         && Timed(q, z, n, Sec(o.startAt), Seconds(o.endAt))
         && Frac(o.startAt) == 0 && (o.endAt.Some? ==> Frac(o.endAt.value) == 0)
  }

  method Realize(q: Request, z: Zone, n: nat, i: nat) returns (r: Option<Occurrence>)
    requires ValidSpan(q)
    ensures r.Some? <==> Realizable(q, z, n)
    ensures r.Some? ==> Realizes(q, z, n, i, r.value)
  {
    if q.allDay {
      var span := q.endDate.value.day - q.startDate.value.day;
      return Some(Occurrence(
        i, n, Ns(z.midnight(n)), Some(Ns(z.midnight(n + span))),
        true, Some(n), Some(n + span), n * DAY));
    }
    r := RealizeTimed(q, z, n, i);
  }

  method RealizeTimed(q: Request, z: Zone, n: nat, i: nat) returns (r: Option<Occurrence>)
    requires ValidSpan(q) && !q.allDay
    ensures r.Some? <==> Realizable(q, z, n)
    ensures r.Some? ==> Realizes(q, z, n, i, r.value)
  {
    var wall := n * DAY + LocalClock(z, q.startAt);
    var endWall := if q.endAt.Some? then Some(Sec(Ns(wall) + WallDuration(q, z))) else None;
    var times := ResolveTimed(z, wall, q.startFold, endWall, q.endFold);
    if times.None? {
      return None;
    }
    r := Some(TimedOccurrence(i, n, wall, times.value.0, times.value.1));
    TimedRealizes(q, z, n, i, times.value.0, times.value.1);
  }

  function TimedOccurrence(i: nat, n: nat, wall: int, start: int, finish: Option<int>): Occurrence {
    Occurrence(
      i, n, Ns(start), if finish.Some? then Some(Ns(finish.value)) else None,
      false, None, None, wall)
  }

  lemma TimedRealizes(q: Request, z: Zone, n: nat, i: nat, start: int, finish: Option<int>)
    requires ValidSpan(q) && !q.allDay && Timed(q, z, n, start, finish)
    ensures Realizes(q, z, n, i, TimedOccurrence(i, n, StartWall(q, z, n), start, finish))
    ensures Realizable(q, z, n)
  {
    var o := TimedOccurrence(i, n, StartWall(q, z, n), start, finish);
    assert Sec(o.startAt) == start && Seconds(o.endAt) == finish;
  }

  /** Resolve the start and, if there is one, an end that must follow it. */
  method ResolveTimed(
    z: Zone, startWall: int, startFold: Fold, endWall: Option<int>, endFold: Fold)
    returns (r: Option<(int, Option<int>)>)
    ensures r.Some? ==> TimedAt(z, startWall, startFold, endWall, endFold, r.value.0, r.value.1)
    ensures r.None? ==>
      forall t, f :: !TimedAt(z, startWall, startFold, endWall, endFold, t, f)
  {
    var start := ResolveRecurringLocal(Some(startWall), Some(z), startFold);
    if start.Err? {
      forall t, f
        ensures !TimedAt(z, startWall, startFold, endWall, endFold, t, f)
      {
        if Answers(z, startWall, startFold, t) {
          AnswerUnique(Candidates(z, startWall), startFold, start, Ok(At(t)));
        }
      }
      return None;
    }
    assert start.value == At(start.value.t);
    if endWall.None? {
      return Some((start.value.t, None));
    }
    var finish := ResolveRecurringLocal(Some(endWall.value), Some(z), endFold);
    if finish.Err? || finish.value.t <= start.value.t {
      forall t, f
        ensures !TimedAt(z, startWall, startFold, endWall, endFold, t, f)
      {
        if Answers(z, startWall, startFold, t) && f.Some? &&
           Answers(z, endWall.value, endFold, f.value)
        {
          AnswerUnique(Candidates(z, startWall), startFold, start, Ok(At(t)));
          AnswerUnique(Candidates(z, endWall.value), endFold, finish, Ok(At(f.value)));
        }
      }
      return None;
    }
    assert finish.value == At(finish.value.t);
    return Some((start.value.t, Some(finish.value.t)));
  }

  lemma {:induction false} WithoutPrefix(s: seq<nat>, k: nat, ex: set<nat>)
    requires k <= |s|
    ensures Without(s[..k], ex) <= Without(s, ex)
  {
    if k < |s| {
      var t := s[..|s| - 1];
      WithoutPrefix(t, k, ex);
      assert t[..k] == s[..k];
    } else {
      assert s[..k] == s;
    }
  }

  /** The next candidate is the next date, unless it is excluded. */
  lemma WithoutNext(s: seq<nat>, i: nat, ex: set<nat>)
    requires i < |s|
    ensures var n := |Without(s[..i], ex)|;
      if s[i] in ex then |Without(s[..i + 1], ex)| == n
      else
        && |Without(s[..i + 1], ex)| == n + 1 <= |Without(s, ex)|
        && Without(s, ex)[n] == s[i]
  {
    assert s[..i + 1][..i] == s[..i];
    WithoutPrefix(s, i + 1, ex);
  }

  /** The materialising loop: skip excluded dates, stop at the count, give up at
      the first date that cannot be realized. */
  method Materialize(
    q: Request, z: Zone, candidates: seq<nat>, ex: set<nat>, count: Option<nat>)
    returns (r: Option<seq<Occurrence>>)
    requires ValidSpan(q) && (count.Some? ==> count.value > 0)
    ensures var days := First(Without(candidates, ex), count);
      && (r.Some? <==> forall i | 0 <= i < |days| :: Realizable(q, z, days[i]))
      && (r.Some? ==> |r.value| == |days|)
      && (r.Some? ==> forall i | 0 <= i < |days| :: Realizes(q, z, days[i], i, r.value[i]))
  {
    var occurrences: seq<Occurrence> := [];
    ghost var all := Without(candidates, ex);
    ghost var days := First(all, count);
    var i := 0;
    while i < |candidates|
      invariant 0 <= i <= |candidates|
      invariant |occurrences| == |Without(candidates[..i], ex)| <= |all|
      invariant count.Some? ==> |occurrences| < count.value
      invariant forall k | 0 <= k < |occurrences| :: Realizes(q, z, all[k], k, occurrences[k])
      invariant forall k | 0 <= k < |occurrences| :: Realizable(q, z, all[k])
    {
      var candidate := candidates[i];
      WithoutNext(candidates, i, ex);
      i := i + 1;
      if candidate in ex {
        continue;
      }
      assert days[|occurrences|] == candidate;
      var occ := Realize(q, z, candidate, |occurrences|);
      if occ.None? {
        return None;
      }
      occurrences := occurrences + [occ.value];
      if count.Some? && |occurrences| >= count.value {
        assert days == all[..count.value];
        return Some(occurrences);
      }
    }
    assert candidates[..i] == candidates;
    return Some(occurrences);
  }

  // ---------- Skipped months, filtered in place ----------

  function UpTo(s: seq<nat>, last: nat): seq<nat> {
    if s == [] then []
    else UpTo(s[..|s| - 1], last) + if s[|s| - 1] <= last then [s[|s| - 1]] else []
  }

  /** Filtering into the front of the same buffer keeps what a filter into a
      fresh one would: the write position never overtakes the read position. */
  method FilterInPlace(a: array<nat>, last: nat) returns (m: nat)
    modifies a
    ensures m <= a.Length && a[..m] == UpTo(old(a[..]), last)
  {
    m := 0;
    ghost var was := a[..];
    for i := 0 to a.Length
      invariant 0 <= m <= i
      invariant a[..m] == UpTo(was[..i], last)
      invariant a[i..] == was[i..]
    {
      assert was[..i + 1][..i] == was[..i];
      assert a[i] == a[i..][0] == was[i];
      ghost var kept, rest := a[..m], a[i + 1..];
      if a[i] <= last {
        a[m] := a[i];
        assert a[..m] == kept;
        m := m + 1;
        assert a[..m] == kept + [was[i]];
      }
      assert a[i + 1..] == rest == was[i..][1..];
    }
    assert was[..a.Length] == was;
  }

  /** Lists of at most one element, each within its own bounds, ascend together. */
  lemma {:induction false} GatherAscends(f: nat -> seq<nat>, bound: nat -> nat, n: nat)
    requires AllBounded(f, bound, n)
    ensures Ascending(Gather(f, n), Same)
    ensures forall i | 0 <= i < |Gather(f, n)| :: Gather(f, n)[i] < bound(n)
  {
    if n > 0 {
      GatherAscends(f, bound, n - 1);
      AscendAppend(Gather(f, n - 1), f(n - 1), bound(n - 1), bound(n));
    }
  }

  ghost predicate Bounded(e: seq<nat>, lo: nat, hi: nat) {
    |e| <= 1 && lo < hi && forall i | 0 <= i < |e| :: lo <= e[i] < hi
  }

  ghost function MonthBegin(p: Plan): nat -> nat {
    (i: nat) => FirstOf(MonthOf(p.anchor) + i)
  }

  ghost predicate AllBounded(f: nat -> seq<nat>, bound: nat -> nat, n: nat) {
    forall i: nat | i < n :: Bounded(f(i), bound(i), bound(i + 1))
  }

  lemma ShortMonthsBounded(p: Plan, f: nat -> seq<nat>, bound: nat -> nat, upto: nat)
    requires p.interval > 0 && f == ShortMonthAt(p) && bound == MonthBegin(p)
    ensures AllBounded(f, bound, upto)
  {
    forall i: nat | i < upto
      ensures Bounded(f(i), bound(i), bound(i + 1))
    {
      ShortMonthBounds(p, i);
    }
  }

  lemma ShortMonthsAscend(p: Plan, upto: nat)
    requires p.interval > 0
    ensures Ascending(ShortMonths(p, upto), Same)
    ensures forall i | 0 <= i < |ShortMonths(p, upto)| ::
      ShortMonths(p, upto)[i] < FirstOf(MonthOf(p.anchor) + upto)
  {
    var f, bound := ShortMonthAt(p), MonthBegin(p);
    ShortMonthsBounded(p, f, bound, upto);
    GatherAscends(f, bound, upto);
  }

  lemma ShortMonthBounds(p: Plan, offset: nat)
    requires p.interval > 0
    ensures var k := MonthOf(p.anchor) + offset;
      Bounded(ShortMonth(p, offset), FirstOf(k), FirstOf(k + 1))
  {
  }

  lemma AscendAppend(s: seq<nat>, e: seq<nat>, lo: nat, hi: nat)
    requires Ascending(s, Same) && Bounded(e, lo, hi)
    requires forall i | 0 <= i < |s| :: s[i] < lo
    ensures Ascending(s + e, Same)
    ensures forall i | 0 <= i < |s + e| :: (s + e)[i] < hi
  {
    var t := s + e;
    forall i, j | 0 <= i < j < |t|
      ensures Same(t[i]) < Same(t[j])
    {
      assert j < |s| ==> Same(s[i]) < Same(s[j]);
    }
  }

  ghost predicate NoneKept(f: nat -> seq<nat>, keep: seq<nat> -> seq<nat>, target: nat, upto: nat) {
    forall i: nat | target <= i < upto :: Ignored(f, keep, i)
  }

  ghost predicate Ignored(f: nat -> seq<nat>, keep: seq<nat> -> seq<nat>, i: nat) {
    keep(Gather(f, i) + f(i)) == keep(Gather(f, i))
  }

  /** A filter that keeps nothing of the later lists sees only the earlier ones. */
  lemma {:induction false} GatherDrops(
    f: nat -> seq<nat>, keep: seq<nat> -> seq<nat>, target: nat, upto: nat)
    requires target <= upto && NoneKept(f, keep, target, upto)
    ensures keep(Gather(f, upto)) == keep(Gather(f, target))
    decreases upto
  {
    if target < upto {
      GatherDrops(f, keep, target, upto - 1);
      assert Ignored(f, keep, upto - 1);
    }
  }

  lemma DropOne(s: seq<nat>, e: seq<nat>, last: nat)
    requires |e| <= 1 && UpTo(e, last) == []
    ensures UpTo(s + e, last) == UpTo(s, last)
  {
    UpToAppend(s, e, last);
  }

  ghost function Keep(last: nat): seq<nat> -> seq<nat> {
    (s: seq<nat>) => UpTo(s, last)
  }

  /** Dropping the records after the last occurrence leaves exactly the short
      months before the month of that occurrence. */
  lemma SkippedBefore(p: Plan, target: nat, upto: nat, last: nat)
    requires p.frequency == Monthly && Matches(p, last) && target <= upto
    requires MonthOf(last) == MonthOf(p.anchor) + target
    ensures UpTo(ShortMonths(p, upto), last) == ShortMonths(p, target)
  {
    LaterMonthsDropped(p, target, upto, last);
    EarlierMonthsKept(p, target, last);
  }

  lemma EarlierMonthsKept(p: Plan, target: nat, last: nat)
    requires p.interval > 0 && MonthOf(p.anchor) + target == MonthOf(last)
    ensures UpTo(ShortMonths(p, target), last) == ShortMonths(p, target)
  {
    AllUpTo(p, target, last);
  }

  lemma LaterMonthsDropped(p: Plan, target: nat, upto: nat, last: nat)
    requires p.frequency == Monthly && Matches(p, last) && target <= upto
    requires MonthOf(last) <= MonthOf(p.anchor) + target
    ensures UpTo(ShortMonths(p, upto), last) == UpTo(ShortMonths(p, target), last)
  {
    var f, keep := ShortMonthAt(p), Keep(last);
    MonthsAfterDropped(p, target, upto, last, f, keep);
    SkippedGathered(p, f, target, upto, last, keep);
  }

  lemma SkippedGathered(
    p: Plan, f: nat -> seq<nat>, target: nat, upto: nat, last: nat, keep: seq<nat> -> seq<nat>)
    requires p.interval > 0 && f == ShortMonthAt(p) && keep == Keep(last)
    requires target <= upto && NoneKept(f, keep, target, upto)
    ensures UpTo(ShortMonths(p, upto), last) == UpTo(ShortMonths(p, target), last)
  {
    GatherDrops(f, keep, target, upto);
  }

  lemma MonthsAfterDropped(
    p: Plan, target: nat, upto: nat, last: nat, f: nat -> seq<nat>, keep: seq<nat> -> seq<nat>)
    requires p.frequency == Monthly && Matches(p, last) && f == ShortMonthAt(p)
    requires MonthOf(last) <= MonthOf(p.anchor) + target && keep == Keep(last)
    ensures NoneKept(f, keep, target, upto)
  {
    forall i: nat | target <= i < upto
      ensures Ignored(f, keep, i)
    {
      LaterMonthDropped(p, i, last);
      DropOne(Gather(f, i), ShortMonth(p, i), last);
    }
  }

  lemma LaterMonthDropped(p: Plan, offset: nat, last: nat)
    requires p.frequency == Monthly && Matches(p, last)
    requires MonthOf(last) <= MonthOf(p.anchor) + offset
    ensures |ShortMonth(p, offset)| <= 1 && UpTo(ShortMonth(p, offset), last) == []
  {
    var k := MonthOf(p.anchor) + offset;
    if MonthOf(last) < k {
      MonthsAscend(MonthOf(last), k);
    }
  }

  lemma UpToAppend(s: seq<nat>, e: seq<nat>, last: nat)
    requires |e| <= 1
    ensures UpTo(s + e, last) == UpTo(s, last) + UpTo(e, last)
  {
    if e == [] {
      assert s + e == s;
    } else {
      assert (s + e)[..|s + e| - 1] == s;
    }
  }

  lemma AllUpTo(p: Plan, upto: nat, last: nat)
    requires p.interval > 0 && FirstOf(MonthOf(p.anchor) + upto) <= last
    ensures UpTo(ShortMonths(p, upto), last) == ShortMonths(p, upto)
  {
    ShortMonthsAscend(p, upto);
    EverythingUpTo(ShortMonths(p, upto), last);
  }

  lemma {:induction false} EverythingUpTo(s: seq<nat>, last: nat)
    requires forall i | 0 <= i < |s| :: s[i] <= last
    ensures UpTo(s, last) == s
  {
    if s != [] {
      EverythingUpTo(s[..|s| - 1], last);
      assert s == s[..|s| - 1] + [s[|s| - 1]];
    }
  }

  // ---------- generateOccurrences ----------

  datatype Expansion = Expansion(occurrences: seq<Occurrence>, skipped: seq<nat>)

  /** The short months to report when the last occurrence falls on day `last`. */
  ghost function Skipped(p: Plan, last: nat): seq<nat> {
    if p.frequency == Monthly && p.interval > 0 && MonthOf(p.anchor) <= MonthOf(last)
    then ShortMonths(p, MonthOf(last) - MonthOf(p.anchor)) else []
  }

  /** There are 1 to 100 dates, and each can be realized. */
  ghost predicate AllRealizable(q: Request, z: Zone, days: seq<nat>) {
    1 <= |days| <= 100 && forall i | 0 <= i < |days| :: Realizable(q, z, days[i])
  }

  /** `e` holds one occurrence per date, and the months passed over. */
  ghost predicate RealizesAll(q: Request, z: Zone, p: Plan, days: seq<nat>, e: Expansion)
    requires ValidSpan(q)
  {
    && 1 <= |days| <= 100 && |e.occurrences| == |days|
    && (forall i | 0 <= i < |days| :: Realizes(q, z, days[i], i, e.occurrences[i]))
    && e.skipped == Skipped(p, days[|days| - 1])
  }

  /** `e` is the expansion of the request: the wanted dates, one occurrence
      each, and the months passed over. */
  ghost predicate Expands(q: Request, z: Zone, e: Expansion)
    requires LocalNs(z, q.startAt) >= 0 && ValidRequest(q, z)
  {
    RealizesAll(q, z, PlanOf(q, z), Wanted(q, z), e)
  }

  /** What the month loop finds, as days of a scan and months walked. */
  lemma MonthsFound(
    p: Plan, limit: nat, upto: nat, candidates: seq<nat>, skipped: seq<nat>)
    requires p.interval > 0 && p.frequency == Monthly && p.anchor <= limit <= AddYear(p.anchor)
    requires Looped(p, limit, upto, candidates, skipped) && (upto > 12 || Beyond(p, limit, upto))
    ensures candidates == Scan(On(p), p.anchor, limit - p.anchor + 1)
    ensures forall n: nat :: n in candidates ==> MonthOf(n) < MonthOf(p.anchor) + upto
  {
    MonthsEqualScan(p, limit, upto, candidates);
    forall n: nat | n in candidates
      ensures MonthOf(n) < MonthOf(p.anchor) + upto
    {
      assert Reached(p, limit, upto, n);
    }
  }

  method MonthCandidates(p: Plan, maxDate: nat, until: Option<nat>)
    returns (candidates: seq<nat>, skipped: seq<nat>, ghost upto: nat)
    requires p.interval > 0 && p.frequency == Monthly && maxDate == AddYear(p.anchor)
    requires p.anchor <= Limit(maxDate, until) <= maxDate
    ensures candidates == Scan(On(p), p.anchor, Limit(maxDate, until) - p.anchor + 1)
    ensures skipped == ShortMonths(p, upto)
    ensures forall n: nat :: n in candidates ==> MonthOf(n) < MonthOf(p.anchor) + upto
  {
    YearEnds(p);
    candidates, skipped, upto := MonthLoop(p, maxDate, until);
    MonthsFound(p, Limit(maxDate, until), upto, candidates, skipped);
  }

  /** The candidate loops: either way, the days found are those of a scan. */
  method FindCandidates(p: Plan, until: Option<nat>)
    returns (candidates: seq<nat>, skipped: seq<nat>, ghost upto: nat)
    requires p.interval > 0 && p.frequency != OtherFrequency
    requires until.Some? ==> p.anchor <= until.value
    ensures p.anchor <= Limit(AddYear(p.anchor), until)
    ensures candidates ==
      Scan(On(p), p.anchor, Limit(AddYear(p.anchor), until) - p.anchor + 1)
    ensures p.frequency == Monthly ==> skipped == ShortMonths(p, upto)
    ensures p.frequency == Monthly ==>
      forall n: nat :: n in candidates ==> MonthOf(n) < MonthOf(p.anchor) + upto
    ensures p.frequency != Monthly ==> skipped == []
  {
    YearSpan(p.anchor);
    var maxDate := AddYear(p.anchor);
    upto := 0;
    if p.frequency == Monthly {
      candidates, skipped, upto := MonthCandidates(p, maxDate, until);
    } else {
      skipped := [];
      forall n: nat | p.anchor <= n
        ensures RecurrenceMatches(p, n) <==> On(p)(n)
      {
        MatchesAgree(p, n);
      }
      candidates := DayCandidates(p, maxDate, until, On(p));
    }
  }

  /** Keep the records up to the last occurrence; the final sort changes
      nothing, because they were recorded in order. */
  method TrimSkipped(skipped: seq<nat>, last: nat, ghost p: Plan, ghost upto: nat)
    returns (kept: seq<nat>)
    requires p.interval > 0 && p.frequency == Monthly ==> skipped == ShortMonths(p, upto)
    requires p.frequency != Monthly ==> skipped == []
    requires Matches(p, last)
    requires p.frequency == Monthly ==> MonthOf(last) < MonthOf(p.anchor) + upto
    ensures kept == Skipped(p, last)
  {
    var buffer := new nat[|skipped|](i requires 0 <= i < |skipped| => skipped[i]);
    assert buffer[..] == skipped;
    var m := FilterInPlace(buffer, last);
    kept := buffer[..m];
    AnchorMonthFirst(p.anchor, last);
    ghost var expected := Skipped(p, last);
    if p.frequency == Monthly {
      ghost var target := MonthOf(last) - MonthOf(p.anchor);
      SkippedBefore(p, target, upto, last);
      ShortMonthsAscend(p, target);
    }
    assert kept == expected && Ascending(kept, Same);
    SortSorts(kept, Same);
    AscendingUnique(Sort(kept, Same), kept, Same);
    kept := Sort(kept, Same);
  }

  lemma {:induction false} WithoutKeepsOnly(s: seq<nat>, ex: set<nat>, i: nat)
    requires i < |Without(s, ex)|
    ensures Without(s, ex)[i] in s
  {
    if i < |Without(s[..|s| - 1], ex)| {
      WithoutKeepsOnly(s[..|s| - 1], ex, i);
    }
  }

  /** A day the rule matches, within the months walked. */
  ghost predicate Walked(p: Plan, upto: nat, n: nat) {
    Matches(p, n) && (p.frequency == Monthly ==> MonthOf(n) < MonthOf(p.anchor) + upto)
  }

  /** `r` is the outcome for the dates `days`. */
  ghost predicate Finished(
    q: Request, z: Zone, p: Plan, days: seq<nat>, r: Result<Expansion, Failure>)
    requires ValidSpan(q)
  {
    && (r.Ok? <==> AllRealizable(q, z, days))
    && (r.Ok? ==> RealizesAll(q, z, p, days, r.value))
  }

  /** The dates chosen are among the days walked. */
  lemma ChosenIsWalked(
    candidates: seq<nat>, ex: set<nat>, count: Option<nat>, p: Plan, upto: nat, days: seq<nat>)
    requires forall n: nat :: n in candidates ==> Walked(p, upto, n)
    requires days == First(Without(candidates, ex), count) && days != []
    ensures Walked(p, upto, days[|days| - 1])
  {
    WithoutKeepsOnly(candidates, ex, |days| - 1);
    assert days[|days| - 1] in candidates;
  }

  /** The outcome once every date is realized: their number is bounded, the skipped
      months are trimmed. */
  method Pack(
    q: Request, z: Zone, occurrences: seq<Occurrence>, skipped: seq<nat>, ghost days: seq<nat>,
    ghost p: Plan, ghost upto: nat)
    returns (r: Result<Expansion, Failure>)
    requires ValidSpan(q) && |occurrences| == |days|
    requires forall i | 0 <= i < |days| :: Realizes(q, z, days[i], i, occurrences[i])
    requires days != [] ==> Walked(p, upto, days[|days| - 1])
    requires p.interval > 0 && p.frequency == Monthly ==> skipped == ShortMonths(p, upto)
    requires p.frequency != Monthly ==> skipped == []
    ensures r.Ok? <==> 1 <= |days| <= 100
    ensures r.Ok? ==> RealizesAll(q, z, p, days, r.value)
  {
    if |occurrences| == 0 || |occurrences| > 100 {
      return Err(BadCount);
    }
    var last := occurrences[|occurrences| - 1].day;
    assert last == days[|days| - 1];
    var kept := TrimSkipped(skipped, last, p, upto);
    return Ok(Expansion(occurrences, kept));
  }

  /** Materialise the candidates, bound their number, trim the skipped months. */
  method Finish(
    q: Request, z: Zone, candidates: seq<nat>, skipped: seq<nat>, ex: set<nat>,
    count: Option<nat>, ghost p: Plan, ghost upto: nat)
    returns (r: Result<Expansion, Failure>)
    requires ValidSpan(q) && (count.Some? ==> count.value > 0)
    requires forall n: nat :: n in candidates ==> Walked(p, upto, n)
    requires p.interval > 0 && p.frequency == Monthly ==> skipped == ShortMonths(p, upto)
    requires p.frequency != Monthly ==> skipped == []
    ensures Finished(q, z, p, First(Without(candidates, ex), count), r)
  {
    var occurrences := Materialize(q, z, candidates, ex, count);
    if occurrences.None? {
      return Err(BadOccurrence);
    }
    ghost var days := First(Without(candidates, ex), count);
    if days != [] {
      ChosenIsWalked(candidates, ex, count, p, upto, days);
    }
    r := Pack(q, z, occurrences.value, skipped, days, p, upto);
  }

  /** The checks on the rule alone. */
  method ValidateRule(r: Rule) returns (ok: bool)
    ensures ok == ValidRule(r)
  {
    if (r.frequency != Daily && r.frequency != Weekly && r.frequency != Monthly) ||
       r.interval < 1 || r.interval > 30 {
      return false;
    }
    if r.count.None? == r.until.None? {
      return false;
    }
    if r.count.Some? && (r.count.value < 1 || r.count.value > 100) {
      return false;
    }
    if |r.exdates| > 100 {
      return false;
    }
    return r.frequency == Weekly || |r.weekdays| == 0;
  }

  /** The checks on the dates of an all-day request. */
  method ValidateSpan(q: Request) returns (ok: bool)
    ensures ok == ValidSpan(q)
  {
    if !q.allDay {
      return true;
    }
    if q.startDate.None? || q.endDate.None? {
      return false;
    }
    if q.startDate.value.NotADate? || q.endDate.value.NotADate? {
      return false;
    }
    var days := q.endDate.value.day - q.startDate.value.day;
    return 0 < days <= 366;
  }

  /** The checks on the request, and the plan they yield. */
  method Validate(q: Request, z: Zone) returns (p: Option<Plan>)
    requires LocalNs(z, q.startAt) >= 0
    ensures p.Some? <==> ValidRequest(q, z)
    ensures p.Some? ==> p.value == PlanOf(q, z)
  {
    var ok := ValidateRule(q.rule);
    if !ok {
      return None;
    }
    ok := ValidateSpan(q);
    if !ok {
      return None;
    }
    var weekdays := WeekdaySet(q.rule.weekdays);
    var exdates := ExdateSet(q.rule.exdates);
    if weekdays.None? || exdates.None? {
      return None;
    }
    var anchor: nat := AnchorDay(q, z);
    if q.rule.until.Some? &&
       (q.rule.until.value.NotADate? || q.rule.until.value.day < anchor ||
        q.rule.until.value.day > AddYear(anchor)) {
      return None;
    }
    if q.endAt.Some? && WallDuration(q, z) < 1_000_000 {
      return None;
    }
    var days := weekdays.value;
    if q.rule.frequency == Weekly && days == {} {
      days := {Weekday(LocalDay(z, q.startAt))};
    }
    WeekdaysAgree(q.rule.weekdays, weekdays.value);
    return Some(Plan(q.rule.frequency, q.rule.interval, days, anchor, exdates.value));
  }

  lemma WeekdaysAgree(codes: seq<Option<nat>>, found: set<nat>)
    requires forall i | 0 <= i < |codes| :: codes[i].Some?
    requires found == set c | c in codes && c.Some? :: c.value
    ensures found == {} <==> codes == []
  {
    if codes != [] {
      assert codes[0] in codes;
      assert codes[0].value in found;
    }
  }

  lemma CandidatesWalked(p: Plan, len: nat, upto: nat, candidates: seq<nat>)
    requires candidates == Scan(On(p), p.anchor, len)
    requires p.frequency == Monthly ==>
      forall n: nat :: n in candidates ==> MonthOf(n) < MonthOf(p.anchor) + upto
    ensures forall n: nat :: n in candidates ==> Walked(p, upto, n)
  {
    ScanIsExact(On(p), p.anchor, len);
  }

  /** The request wants 1 to 100 dates, and each can be realized. */
  ghost predicate Servable(q: Request, z: Zone)
    requires LocalNs(z, q.startAt) >= 0 && ValidRequest(q, z)
  {
    AllRealizable(q, z, Wanted(q, z))
  }

  /** Generation for a validated request. */
  method GenerateValid(q: Request, z: Zone, p: Plan) returns (r: Result<Expansion, Failure>)
    requires LocalNs(z, q.startAt) >= 0 && ValidRequest(q, z) && p == PlanOf(q, z)
    ensures r.Ok? <==> Servable(q, z)
    ensures r.Ok? ==> Expands(q, z, r.value)
  {
    var candidates, skipped;
    ghost var upto;
    candidates, skipped, upto := FindCandidates(p, UntilDay(q));
    ghost var len := Limit(AddYear(p.anchor), UntilDay(q)) - p.anchor + 1;
    CandidatesWalked(p, len, upto, candidates);
    r := Finish(q, z, candidates, skipped, p.exdates, Count(q), p, upto);
    WantedIs(q, z, p, candidates);
    WantedFinished(q, z, First(Without(candidates, p.exdates), Count(q)), r);
  }

  lemma WantedIs(q: Request, z: Zone, p: Plan, candidates: seq<nat>)
    requires LocalNs(z, q.startAt) >= 0 && ValidRequest(q, z) && p == PlanOf(q, z)
    requires p.anchor <= Limit(AddYear(p.anchor), UntilDay(q))
    requires candidates ==
      Scan(On(p), p.anchor, Limit(AddYear(p.anchor), UntilDay(q)) - p.anchor + 1)
    ensures Wanted(q, z) == First(Without(candidates, p.exdates), Count(q))
  {
  }

  lemma WantedFinished(
    q: Request, z: Zone, days: seq<nat>, r: Result<Expansion, Failure>)
    requires LocalNs(z, q.startAt) >= 0 && ValidRequest(q, z)
    requires days == Wanted(q, z) && Finished(q, z, PlanOf(q, z), days, r)
    ensures r.Ok? <==> Servable(q, z)
    ensures r.Ok? ==> Expands(q, z, r.value)
  {
  }

  /** The whole expansion succeeds exactly on the valid requests that want 1 to
      100 dates, all of them realizable, and then returns those. */
  method GenerateOccurrences(q: Request) returns (r: Result<Expansion, Failure>)
    requires q.zone.Some? ==> LocalNs(q.zone.value, q.startAt) >= 0
    ensures q.zone.None? ==> r == Err(BadRule)
    ensures q.zone.Some? && !ValidRequest(q, q.zone.value) ==> r == Err(BadRule)
    ensures q.zone.Some? && ValidRequest(q, q.zone.value) ==>
      (r.Ok? <==> Servable(q, q.zone.value)) && (r.Ok? ==> Expands(q, q.zone.value, r.value))
  {
    if q.zone.None? {
      return Err(BadRule);
    }
    var z := q.zone.value;
    var plan := Validate(q, z);
    if plan.None? {
      return Err(BadRule);
    }
    r := GenerateValid(q, z, plan.value);
  }

  // ---------- What the expansion guarantees ----------

  /** Clocks in the zone are never set back by a whole day. */
  ghost predicate NeverBackADay(z: Zone) {
    forall s, t :: s <= t ==> z.offset(s) - z.offset(t) < DAY
  }

  lemma LaterReadingLaterInstant(z: Zone, s: int, t: int)
    requires NeverBackADay(z) && Local(z, s) + DAY <= Local(z, t)
    ensures s < t
  {
    assert t <= s ==> z.offset(t) - z.offset(s) < DAY;
  }

  /** The instant an occurrence starts at reads as its day and clock time. */
  lemma StartReadsBack(q: Request, z: Zone, n: nat, i: nat, o: Occurrence)
    requires ValidSpan(q) && Realizes(q, z, n, i, o) && (q.allDay ==> HasMidnights(z))
    ensures Frac(o.startAt) == 0
    ensures Local(z, Sec(o.startAt)) ==
      n * DAY + if q.allDay then 0 else LocalClock(z, q.startAt)
  {
    if q.allDay {
      assert Sec(o.startAt) == z.midnight(n);
    }
  }

  /** Dates and instants of an expansion both strictly increase. */
  lemma OccurrencesIncrease(q: Request, z: Zone, e: Expansion, i: nat, j: nat)
    requires LocalNs(z, q.startAt) >= 0 && ValidRequest(q, z) && Expands(q, z, e)
    requires NeverBackADay(z) && (q.allDay ==> HasMidnights(z))
    requires i < j < |e.occurrences|
    ensures e.occurrences[i].day < e.occurrences[j].day
    ensures e.occurrences[i].startAt < e.occurrences[j].startAt
  {
    var days := Wanted(q, z);
    var p := PlanOf(q, z);
    YearSpan(p.anchor);
    ChosenAreFirstAdmissible(
      On(p), p.exdates, p.anchor, Limit(AddYear(p.anchor), UntilDay(q)), Count(q));
    assert Same(days[i]) < Same(days[j]);
    StartReadsBack(q, z, days[i], i, e.occurrences[i]);
    StartReadsBack(q, z, days[j], j, e.occurrences[j]);
    LaterReadingLaterInstant(z, Sec(e.occurrences[i].startAt), Sec(e.occurrences[j].startAt));
  }

  lemma {:induction false} ShortMonthsListed(p: Plan, upto: nat, n: nat)
    requires p.interval > 0
    ensures n in ShortMonths(p, upto) <==>
      exists offset :: 0 <= offset < upto && n in ShortMonth(p, offset)
  {
    if upto > 0 {
      ShortMonthsListed(p, upto - 1, n);
    }
  }

  lemma NoMatchInShortMonth(p: Plan, k: nat, n: nat)
    requires p.frequency == Monthly && Matches(p, n) && Length(k) < DayOfMonth(p.anchor)
    ensures MonthOf(n) != k
  {
    assert DayOfMonth(n) <= Length(MonthOf(n));
  }

  lemma ShortMonthRecorded(p: Plan, offset: nat, k: nat, last: nat)
    requires p.frequency == Monthly && p.interval > 0 && offset % p.interval == 0
    requires Matches(p, last) && k == MonthOf(p.anchor) + offset <= MonthOf(last)
    requires Length(k) < DayOfMonth(p.anchor)
    ensures FirstOf(k) + Length(k) - 1 in Skipped(p, last)
  {
    NoMatchInShortMonth(p, k, last);
    var n := FirstOf(k) + Length(k) - 1;
    assert n in ShortMonth(p, offset);
    ShortMonthsListed(p, MonthOf(last) - MonthOf(p.anchor), n);
  }

  /** A matching day of month `k` comes no later than one of a later month. */
  lemma EarlierMonthEarlierDay(p: Plan, k: nat, date: nat, last: nat)
    requires p.frequency == Monthly && Matches(p, last) && k <= MonthOf(last)
    requires DayOfMonth(p.anchor) <= Length(k) && date == FirstOf(k) + DayOfMonth(p.anchor) - 1
    ensures date <= last
  {
    if k < MonthOf(last) {
      MonthsAscend(k, MonthOf(last));
    } else {
      MatchIsThatDay(p, last, k, DayOfMonth(p.anchor));
    }
  }

  lemma NotBeforeTheAnchor(p: Plan, k: nat, date: nat)
    requires MonthOf(p.anchor) <= k && date == FirstOf(k) + DayOfMonth(p.anchor) - 1
    ensures p.anchor <= date
  {
    if MonthOf(p.anchor) < k {
      MonthsAscend(MonthOf(p.anchor), k);
    }
  }

  lemma LongMonthAccounted(p: Plan, offset: nat, last: nat)
    requires p.frequency == Monthly && p.interval > 0 && offset % p.interval == 0
    requires Matches(p, last) && MonthOf(p.anchor) + offset <= MonthOf(last)
    requires Length(MonthOf(p.anchor) + offset) >= DayOfMonth(p.anchor)
    ensures var date := FirstOf(MonthOf(p.anchor) + offset) + DayOfMonth(p.anchor) - 1;
      Matches(p, date) && date <= last
  {
    var k := MonthOf(p.anchor) + offset;
    var date := FirstOf(k) + DayOfMonth(p.anchor) - 1;
    NotBeforeTheAnchor(p, k, date);
    EarlierMonthEarlierDay(p, k, date, last);
    ThatDayMatches(p, offset, date, k, DayOfMonth(p.anchor));
  }

  lemma ShortMonthIsShort(p: Plan, offset: nat, n: nat)
    requires p.interval > 0 && n in ShortMonth(p, offset)
    ensures Length(MonthOf(n)) < DayOfMonth(p.anchor)
  {
    MonthUnique(n, MonthOf(p.anchor) + offset);
  }

  lemma SkippedAreShort(p: Plan, last: nat, n: nat)
    requires p.frequency == Monthly && n in Skipped(p, last)
    ensures Length(MonthOf(n)) < DayOfMonth(p.anchor)
  {
    ShortMonthsListed(p, MonthOf(last) - MonthOf(p.anchor), n);
    var offset :| 0 <= offset && n in ShortMonth(p, offset);
    ShortMonthIsShort(p, offset, n);
  }

  /** The month `offset` months after the anchor's is accounted for exactly once: it
      is a skipped record without an occurrence; or the anchor's day in it is an
      occurrence or an excluded date, and there is no record. */
  ghost predicate Accounted(p: Plan, days: seq<nat>, offset: nat)
    requires days != []
  {
    var k := MonthOf(p.anchor) + offset;
    var skipped := Skipped(p, days[|days| - 1]);
    if Length(k) < DayOfMonth(p.anchor) then
      && FirstOf(k) + Length(k) - 1 in skipped
      && (forall n: nat :: n in days ==> MonthOf(n) != k)
    else
      var date := FirstOf(k) + DayOfMonth(p.anchor) - 1;
      && (date in days <==> date !in p.exdates)
      && (forall n: nat :: n in skipped ==> MonthOf(n) != k)
  }

  /** Accounting: so it is for each month the rule lands on, from the anchor's to
      that of the last occurrence. */
  lemma MonthsAccounted(p: Plan, limit: nat, count: Option<nat>, offset: nat)
    requires p.frequency == Monthly && p.interval > 0 && p.anchor <= limit
    requires count.Some? ==> count.value > 0
    requires offset % p.interval == 0
    requires var days := Chosen(On(p), p.exdates, p.anchor, limit, count);
      days != [] && MonthOf(p.anchor) + offset <= MonthOf(days[|days| - 1])
    ensures Accounted(p, Chosen(On(p), p.exdates, p.anchor, limit, count), offset)
  {
    var days := Chosen(On(p), p.exdates, p.anchor, limit, count);
    ChosenToTheLast(p, limit, count, days);
    MonthAccounted(p, days, offset);
  }

  /** The days match and are not excluded, and up to the last no such day is missing. */
  ghost predicate CompleteToTheLast(p: Plan, days: seq<nat>)
    requires days != []
  {
    && (forall n: nat :: n in days ==> Matches(p, n) && n !in p.exdates)
    && (forall n: nat ::
          n in days || (Matches(p, n) && n <= days[|days| - 1] ==> n in p.exdates))
  }

  lemma ChosenToTheLast(p: Plan, limit: nat, count: Option<nat>, days: seq<nat>)
    requires p.anchor <= limit && (count.Some? ==> count.value > 0) && days != []
    requires days == Chosen(On(p), p.exdates, p.anchor, limit, count)
    ensures CompleteToTheLast(p, days)
  {
    ChosenAreFirstAdmissible(On(p), p.exdates, p.anchor, limit, count);
    assert Admissible(On(p), p.exdates, p.anchor, limit, days[|days| - 1]);
    forall n: nat
      ensures n in days ==> Matches(p, n) && n !in p.exdates
      ensures n in days || (Matches(p, n) && n <= days[|days| - 1] ==> n in p.exdates)
    {
      assert n in days ==> Admissible(On(p), p.exdates, p.anchor, limit, n);
      assert Matches(p, n) && n <= days[|days| - 1] && n !in p.exdates ==>
        Admissible(On(p), p.exdates, p.anchor, limit, n);
    }
  }

  lemma MonthAccounted(p: Plan, days: seq<nat>, offset: nat)
    requires p.frequency == Monthly && p.interval > 0 && offset % p.interval == 0
    requires days != [] && MonthOf(p.anchor) + offset <= MonthOf(days[|days| - 1])
    requires CompleteToTheLast(p, days)
    ensures Accounted(p, days, offset)
  {
    var last := days[|days| - 1];
    var k := MonthOf(p.anchor) + offset;
    assert last in days;
    if Length(k) < DayOfMonth(p.anchor) {
      ShortMonthCase(p, offset, k, last, days);
    } else {
      LongMonthCase(p, offset, k, last);
    }
  }

  lemma ShortMonthCase(p: Plan, offset: nat, k: nat, last: nat, days: seq<nat>)
    requires p.frequency == Monthly && p.interval > 0 && offset % p.interval == 0
    requires Matches(p, last) && k == MonthOf(p.anchor) + offset <= MonthOf(last)
    requires Length(k) < DayOfMonth(p.anchor)
    requires forall n: nat :: n in days ==> Matches(p, n)
    ensures FirstOf(k) + Length(k) - 1 in Skipped(p, last)
    ensures forall n: nat :: n in days ==> MonthOf(n) != k
  {
    ShortMonthRecorded(p, offset, k, last);
    forall n: nat | n in days
      ensures MonthOf(n) != k
    {
      NoMatchInShortMonth(p, k, n);
    }
  }

  lemma LongMonthCase(p: Plan, offset: nat, k: nat, last: nat)
    requires p.frequency == Monthly && p.interval > 0 && offset % p.interval == 0
    requires Matches(p, last) && k == MonthOf(p.anchor) + offset <= MonthOf(last)
    requires Length(k) >= DayOfMonth(p.anchor)
    ensures var date := FirstOf(k) + DayOfMonth(p.anchor) - 1; Matches(p, date) && date <= last
    ensures forall n: nat :: n in Skipped(p, last) ==> MonthOf(n) != k
  {
    LongMonthAccounted(p, offset, last);
    forall n: nat | n in Skipped(p, last)
      ensures MonthOf(n) != k
    {
      SkippedAreShort(p, last, n);
    }
  }
}
