/**
 What an expansion means, read off the request itself: which dates it holds, what
 their clocks show and how long they last.
 */
module Expansion {
  import opened Prelude
  import opened LocalTime
  import opened Calendar
  import opened Recurrence

  // ---------- The dates ----------

  /** The date the rule counts from. */
  function Anchor(q: Request, z: Zone): int {
    if q.allDay && q.startDate.Some? && q.startDate.value.IsoDate? then q.startDate.value.day
    else Local(z, Sec(q.startAt)) / DAY
  }

  /** The weekday is among those asked for; by default it is that of the start. */
  ghost predicate OnWeekday(q: Request, z: Zone, n: nat) {
    if q.rule.weekdays == [] then
      var day := Local(z, Sec(q.startAt)) / DAY;
      day >= 0 && Weekday(n) == Weekday(day)
    else Some(Weekday(n)) in q.rule.weekdays
  }

  /** The rule repeats on day `n`, counted from day `a`: every so many days; on the
      asked weekdays of every so many Monday-based weeks; on the same day of every so
      many months. */
  ghost predicate Repeats(q: Request, z: Zone, a: nat, n: nat)
    requires q.rule.interval > 0 && a <= n
  {
    match q.rule.frequency
    case Daily => (n - a) % q.rule.interval == 0
    case Weekly =>
      && ((n - SinceMonday(n)) - (a - SinceMonday(a))) / 7 % q.rule.interval == 0
      && OnWeekday(q, z, n)
    case Monthly =>
      && (MonthOf(n) - MonthOf(a)) % q.rule.interval == 0
      && n - FirstOf(MonthOf(n)) == a - FirstOf(MonthOf(a))
    case OtherFrequency => false
  }

  /** Day `n` is one the request admits: within a year of the anchor, not after the
      until date, on the rule, and not excluded. */
  ghost predicate Admits(q: Request, z: Zone, n: nat) {
    var a := Anchor(q, z);
    && q.rule.interval > 0 && 0 <= a <= n <= AddYear(a)
    && (q.rule.until.Some? && q.rule.until.value.IsoDate? ==> n <= q.rule.until.value.day)
    && Repeats(q, z, a, n)
    && IsoDate(n) !in q.rule.exdates
  }

  lemma AnchorsAgree(q: Request, z: Zone)
    ensures Anchor(q, z) == AnchorDay(q, z) && LocalDay(z, q.startAt) == Local(z, Sec(q.startAt)) / DAY
  {
    ReadingNs(z, q.startAt);
  }

  lemma WeekdaysMean(q: Request, z: Zone, n: nat)
    requires LocalNs(z, q.startAt) >= 0 && ValidRequest(q, z) && q.rule.frequency == Weekly
    ensures Weekday(n) in PlanOf(q, z).weekdays <==> OnWeekday(q, z, n)
  {
    AnchorsAgree(q, z);
    if q.rule.weekdays != [] {
      assert Some(Weekday(n)) in q.rule.weekdays <==>
        Weekday(n) in set c | c in q.rule.weekdays && c.Some? :: c.value;
    }
  }

  /** The plan's match is the rule's meaning. */
  lemma MatchesMean(q: Request, z: Zone, n: nat)
    requires LocalNs(z, q.startAt) >= 0 && ValidRequest(q, z) && Anchor(q, z) <= n
    ensures Anchor(q, z) >= 0 && (Matches(PlanOf(q, z), n) <==> Repeats(q, z, Anchor(q, z), n))
  {
    AnchorsAgree(q, z);
    var p := PlanOf(q, z);
    match q.rule.frequency
    case Daily =>
    case Weekly =>
      MondaysApart(p.anchor, n);
      WeekdaysMean(q, z, n);
    case Monthly => SameDayOfMonth(p.anchor, n);
    case OtherFrequency =>
  }

  lemma SameDayOfMonth(a: nat, n: nat)
    ensures DayOfMonth(n) == DayOfMonth(a) <==>
      n - FirstOf(MonthOf(n)) == a - FirstOf(MonthOf(a))
  {
  }

  lemma ExdatesMean(q: Request, z: Zone, n: nat)
    requires LocalNs(z, q.startAt) >= 0 && ValidRequest(q, z)
    ensures n in PlanOf(q, z).exdates <==> IsoDate(n) in q.rule.exdates
  {
  }

  lemma AdmissibleMeans(q: Request, z: Zone, n: nat)
    requires LocalNs(z, q.startAt) >= 0 && ValidRequest(q, z)
    ensures var p := PlanOf(q, z);
      Admissible(On(p), p.exdates, p.anchor, Limit(AddYear(p.anchor), UntilDay(q)), n) <==>
      Admits(q, z, n)
  {
    AnchorsAgree(q, z);
    ExdatesMean(q, z, n);
    if Anchor(q, z) <= n {
      MatchesMean(q, z, n);
    }
  }

  ghost function Days(e: Recurrence.Expansion): (days: seq<nat>)
    ensures |days| == |e.occurrences|
  {
    seq(|e.occurrences|, i requires 0 <= i < |e.occurrences| => e.occurrences[i].day)
  }

  lemma DaysAreWanted(q: Request, z: Zone, e: Recurrence.Expansion)
    requires LocalNs(z, q.startAt) >= 0 && ValidRequest(q, z) && Expands(q, z, e)
    ensures Days(e) == Wanted(q, z) && |Days(e)| > 0
  {
    var days := Wanted(q, z);
    forall i | 0 <= i < |days|
      ensures Days(e)[i] == days[i]
    {
      assert Realizes(q, z, days[i], i, e.occurrences[i]);
    }
  }

  /** The dates ascend, are all admitted, are no more than the count, and an admitted
      date is missing only if the count is used up by earlier ones. */
  ghost predicate ExactlyAdmitted(q: Request, z: Zone, days: seq<nat>)
    requires days != []
  {
    && (forall i, j | 0 <= i < j < |days| :: days[i] < days[j])
    && (forall n: nat :: n in days ==> Admits(q, z, n))
    && (q.rule.count.Some? ==> |days| <= q.rule.count.value)
    && (forall n: nat :: Admits(q, z, n) && n !in days ==>
          q.rule.count.Some? && |days| == q.rule.count.value && days[|days| - 1] < n)
  }

  /** The dates of an expansion ascend, are all admitted, are no more than the count,
      and an admitted date is missing only if the count is used up by earlier ones. */
  lemma DatesAreExact(q: Request, z: Zone, e: Recurrence.Expansion)
    requires LocalNs(z, q.startAt) >= 0 && ValidRequest(q, z) && Expands(q, z, e)
    ensures Days(e) != [] && ExactlyAdmitted(q, z, Days(e))
  {
    DaysAreWanted(q, z, e);
    WantedAreExact(q, z, Days(e));
  }

  /** The dates wanted, in the plan's terms. */
  lemma WantedAreAdmissible(q: Request, z: Zone, days: seq<nat>, p: Plan, limit: nat)
    requires LocalNs(z, q.startAt) >= 0 && ValidRequest(q, z) && days == Wanted(q, z)
    requires p == PlanOf(q, z) && limit == Limit(AddYear(p.anchor), UntilDay(q))
    ensures Ascending(days, Same)
    ensures q.rule.count.Some? ==> |days| <= q.rule.count.value
    ensures forall n: nat :: n in days ==> Admissible(On(p), p.exdates, p.anchor, limit, n)
    ensures forall n: nat ::
      Admissible(On(p), p.exdates, p.anchor, limit, n) && n !in days ==>
        q.rule.count.Some? && |days| == q.rule.count.value && days[|days| - 1] < n
  {
    YearSpan(p.anchor);
    ChosenAreFirstAdmissible(On(p), p.exdates, p.anchor, limit, Count(q));
  }

  lemma WantedAreExact(q: Request, z: Zone, days: seq<nat>)
    requires LocalNs(z, q.startAt) >= 0 && ValidRequest(q, z) && days == Wanted(q, z)
    requires days != []
    ensures ExactlyAdmitted(q, z, days)
  {
    var p := PlanOf(q, z);
    var limit := Limit(AddYear(p.anchor), UntilDay(q));
    WantedAreAdmissible(q, z, days, p, limit);
    forall i, j | 0 <= i < j < |days|
      ensures days[i] < days[j]
    {
      assert Same(days[i]) < Same(days[j]);
    }
    forall n: nat
      ensures n in days ==> Admits(q, z, n)
      ensures Admits(q, z, n) && n !in days ==>
        q.rule.count.Some? && |days| == q.rule.count.value && days[|days| - 1] < n
    {
      AdmissibleMeans(q, z, n);
    }
  }

  // ---------- Which requests are expanded ----------

  /** The request is in order: a known frequency every 1 to 30 units; a count of 1 to
      100 or an until date within a year of the anchor, not both; at most 100 excluded
      dates, all parsable; known, different weekdays, for weekly rules only; an all-day
      span of 1 to 366 days; an end at least a millisecond after the start on the wall
      clock. */
  ghost predicate InOrder(q: Request, z: Zone) {
    var r := q.rule;
    && (r.frequency == Daily || r.frequency == Weekly || r.frequency == Monthly)
    && 1 <= r.interval <= 30
    && (r.count.Some? != r.until.Some?) && (r.count.Some? ==> 1 <= r.count.value <= 100)
    && |r.exdates| <= 100 && (forall i | 0 <= i < |r.exdates| :: r.exdates[i].IsoDate?)
    && (r.frequency != Weekly ==> r.weekdays == [])
    && (forall i | 0 <= i < |r.weekdays| :: r.weekdays[i].Some?)
    && (forall i, j | 0 <= i < j < |r.weekdays| :: r.weekdays[i] != r.weekdays[j])
    && (q.allDay ==>
          && q.startDate.Some? && q.startDate.value.IsoDate?
          && q.endDate.Some? && q.endDate.value.IsoDate?
          && 1 <= q.endDate.value.day - q.startDate.value.day <= 366)
    && (r.until.Some? ==>
          && r.until.value.IsoDate? && Anchor(q, z) >= 0
          && Anchor(q, z) <= r.until.value.day <= AddYear(Anchor(q, z)))
    && (q.endAt.Some? ==> WallNs(z, q.endAt.value) - WallNs(z, q.startAt) >= 1_000_000)
  }

  lemma ValidMeans(q: Request, z: Zone)
    requires LocalNs(z, q.startAt) >= 0
    ensures ValidRequest(q, z) <==> InOrder(q, z)
  {
    AnchorsAgree(q, z);
    ReadingNs(z, q.startAt);
    if q.endAt.Some? {
      ReadingNs(z, q.endAt.value);
    }
  }

  lemma TimedMeans(
    q: Request, z: Zone, n: nat, wall: int, end: Option<int>, start: int, finish: Option<int>)
    requires wall == n * DAY + Local(z, Sec(q.startAt)) % DAY
    requires end == if q.endAt.None? then None
      else Some(wall + Sec(WallNs(z, q.endAt.value) - WallNs(z, q.startAt)))
    ensures Timed(q, z, n, start, finish) <==>
      TimedAt(z, wall, q.startFold, end, q.endFold, start, finish)
  {
    WallLengths(q, z, n);
  }

  /** A timed date can be realized exactly if its two readings have answers, the end
      after the start. */
  lemma RealizableMeans(q: Request, z: Zone, n: nat, wall: int, end: Option<int>)
    requires !q.allDay && wall == n * DAY + Local(z, Sec(q.startAt)) % DAY
    requires end == if q.endAt.None? then None
      else Some(wall + Sec(WallNs(z, q.endAt.value) - WallNs(z, q.startAt)))
    ensures Realizable(q, z, n) <==>
      exists start, finish :: TimedAt(z, wall, q.startFold, end, q.endFold, start, finish)
  {
    if start, finish :| Timed(q, z, n, start, finish) {
      TimedMeans(q, z, n, wall, end, start, finish);
    }
    if start, finish :| TimedAt(z, wall, q.startFold, end, q.endFold, start, finish) {
      TimedMeans(q, z, n, wall, end, start, finish);
    }
  }

  // ---------- The clock ----------

  /** `o` starts at the clock time of the request's start on its own day, and lasts on
      the wall clock as long as the request does, down to the second. */
  ghost predicate KeepsTheClock(q: Request, z: Zone, o: Occurrence) {
    && Frac(o.startAt) == 0
    && Local(z, Sec(o.startAt)) == o.day * DAY + Local(z, Sec(q.startAt)) % DAY
    && (o.endAt.Some? <==> q.endAt.Some?)
    && (q.endAt.Some? ==>
          && Frac(o.endAt.value) == 0 && o.startAt < o.endAt.value
          && Local(z, Sec(o.endAt.value)) - Local(z, Sec(o.startAt)) ==
             Sec(WallNs(z, q.endAt.value) - WallNs(z, q.startAt)))
  }

  lemma AnswerReads(z: Zone, wall: int, fold: Fold, t: int)
    requires Answers(z, wall, fold, t)
    ensures Local(z, t) == wall
  {
    assert Candidates(z, wall)(At(t));
  }

  lemma WallLengths(q: Request, z: Zone, n: nat)
    ensures StartWall(q, z, n) == n * DAY + Local(z, Sec(q.startAt)) % DAY
    ensures q.endAt.Some? ==>
      EndWall(q, z, n) - StartWall(q, z, n) ==
      Sec(WallNs(z, q.endAt.value) - WallNs(z, q.startAt))
  {
    ReadingNs(z, q.startAt);
    if q.endAt.Some? {
      ReadingNs(z, q.endAt.value);
      SecondsAdd(StartWall(q, z, n), WallDuration(q, z));
    }
  }

  lemma RealizedKeepsTheClock(q: Request, z: Zone, n: nat, i: nat, o: Occurrence)
    requires ValidSpan(q) && !q.allDay && Realizes(q, z, n, i, o)
    ensures KeepsTheClock(q, z, o)
  {
    WallLengths(q, z, n);
    AnswerReads(z, StartWall(q, z, n), q.startFold, Sec(o.startAt));
    if q.endAt.Some? {
      AnswerReads(z, EndWall(q, z, n), q.endFold, Sec(o.endAt.value));
    }
  }

  /** So does every occurrence of a timed expansion. */
  lemma OccurrencesKeepTheClock(q: Request, z: Zone, e: Recurrence.Expansion, i: nat)
    requires LocalNs(z, q.startAt) >= 0 && ValidRequest(q, z) && Expands(q, z, e)
    requires !q.allDay && i < |e.occurrences|
    ensures KeepsTheClock(q, z, e.occurrences[i])
  {
    RealizedKeepsTheClock(q, z, Wanted(q, z)[i], i, e.occurrences[i]);
  }

  /** Occurrences of an all-day expansion are whole local days, as many as asked. */
  lemma OccurrencesAreWholeDays(q: Request, z: Zone, e: Recurrence.Expansion, i: nat)
    requires LocalNs(z, q.startAt) >= 0 && ValidRequest(q, z) && Expands(q, z, e)
    requires q.allDay && i < |e.occurrences|
    ensures var o := e.occurrences[i];
      && o.startDate == Some(o.day) && o.endDate.Some?
      && o.endDate.value - o.day == q.endDate.value.day - q.startDate.value.day
      && o.startAt == Ns(z.midnight(o.day)) && o.endAt == Some(Ns(z.midnight(o.endDate.value)))
  {
    assert Realizes(q, z, Wanted(q, z)[i], i, e.occurrences[i]);
  }

  // ---------- The first occurrence ----------

  /** The rule repeats on the anchor itself, unless its weekday is not asked for. */
  lemma AnchorRepeats(q: Request, z: Zone)
    requires LocalNs(z, q.startAt) >= 0 && ValidRequest(q, z)
    requires q.rule.frequency == Weekly ==> OnWeekday(q, z, Anchor(q, z))
    requires Anchor(q, z) >= 0 && IsoDate(Anchor(q, z)) !in q.rule.exdates
    ensures Admits(q, z, Anchor(q, z))
  {
    AnchorsAgree(q, z);
    YearSpan(Anchor(q, z));
  }

  /** If the request's own date is on the rule and not excluded, it is the first
      occurrence; and if no other instant reads as its start does, that occurrence
      starts at the very second of the request's start. */
  lemma FirstOccurrenceIsTheStart(q: Request, z: Zone, e: Recurrence.Expansion)
    requires LocalNs(z, q.startAt) >= 0 && ValidRequest(q, z) && Expands(q, z, e) && !q.allDay
    requires q.rule.frequency == Weekly ==> Anchor(q, z) >= 0 && OnWeekday(q, z, Anchor(q, z))
    requires Anchor(q, z) >= 0 ==> IsoDate(Anchor(q, z)) !in q.rule.exdates
    ensures |e.occurrences| > 0 && e.occurrences[0].day == Anchor(q, z)
    ensures (forall t :: Local(z, t) == Local(z, Sec(q.startAt)) ==> t == Sec(q.startAt)) ==>
      e.occurrences[0].startAt == Ns(Sec(q.startAt))
  {
    AnchorsAgree(q, z);
    AnchorRepeats(q, z);
    FirstDate(q, z, e);
    OccurrencesKeepTheClock(q, z, e, 0);
    var o := e.occurrences[0];
    assert Local(z, Sec(o.startAt)) == Local(z, Sec(q.startAt));
  }

  lemma FirstDate(q: Request, z: Zone, e: Recurrence.Expansion)
    requires LocalNs(z, q.startAt) >= 0 && ValidRequest(q, z) && Expands(q, z, e)
    requires Anchor(q, z) >= 0 && Admits(q, z, Anchor(q, z))
    ensures |e.occurrences| > 0 && e.occurrences[0].day == Anchor(q, z)
  {
    DaysAreWanted(q, z, e);
    DatesAreExact(q, z, e);
    var days, a := Days(e), Anchor(q, z);
    assert days[0] in days;
    assert Admits(q, z, days[0]);
    assert days[|days| - 1] in days;
    assert Admits(q, z, days[|days| - 1]);
    assert a in days;
    var k :| 0 <= k < |days| && days[k] == a;
  }
}
