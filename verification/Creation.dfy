/**
 The times of a new schedule: which of the request's time fields may be combined,
 and what they are stored as.
 */
module Creation {
  import opened Prelude
  import opened LocalTime
  import opened Calendar
  import opened Patching

  /** The time fields of a request.  A local time that is present may still fail to
      parse; seconds for local times, nanoseconds for instants. */
  datatype TimeInput = TimeInput(
    startAt: Option<int>, endAt: Option<int>,
    localStart: Option<Option<int>>, localEnd: Option<Option<int>>,
    startDate: Option<DateText>, endDate: Option<DateText>,
    allDay: bool, zone: Option<Zone>, startFold: Fold, endFold: Fold)

  datatype Times = Times(
    startAt: int, endAt: Option<int>, startDate: Option<int>, endDate: Option<int>)

  datatype InputError = InvalidFields | Unresolved(error: TimeError)

  /** Each day of the zone begins after the day before it did. */
  ghost predicate DaysAscend(z: Zone) {
    forall a, b :: a < b ==> z.midnight(a) < z.midnight(b)
  }

  /** Whole local days: [startDate, endDate), from midnight to midnight. */
  ghost predicate WholeDays(z: Zone, t: Times) {
    && t.startDate.Some? && t.endDate.Some?
    && t.startAt == Ns(z.midnight(t.startDate.value))
    && t.endAt == Some(Ns(z.midnight(t.endDate.value)))
    && t.startAt < t.endAt.value
  }

  /** The local time parses, the zone is known, and the resolver has an answer. */
  ghost predicate Resolvable(wall: Option<int>, zone: Option<Zone>, fold: Fold) {
    && wall.Some? && zone.Some?
    && exists a: Instant :: Resolves(Candidates(zone.value, wall.value), fold, Ok(a))
  }

  /** `at` is that answer, in nanoseconds. */
  ghost predicate FromLocal(wall: Option<int>, z: Zone, fold: Fold, at: int) {
    && wall.Some?
    && exists a: Instant :: at == Ns(a.t) && Resolves(Candidates(z, wall.value), fold, Ok(a))
  }

  /** Why there is none. */
  ghost predicate Unresolvable(wall: Option<int>, zone: Option<Zone>, fold: Fold, e: TimeError) {
    if wall.None? then e == BadText
    else if zone.None? then e == BadZone
    else Resolves(Candidates(zone.value, wall.value), fold, Err(e))
  }

  /** The resolver never both answers and fails. */
  lemma OneWay(p: Instant -> bool, fold: Fold, a: Instant, e: TimeError)
    requires Resolves(p, fold, Ok(a))
    ensures !Resolves(p, fold, Err(e))
  {
  }

  ghost predicate UsesDates(i: TimeInput) { i.startDate.Some? || i.endDate.Some? }

  ghost predicate UsesLocal(i: TimeInput) { i.localStart.Some? || i.localEnd.Some? }

  /** The field combinations that are allowed at all. */
  ghost predicate WellCombined(i: TimeInput) {
    if UsesDates(i) then
      && i.allDay && i.startDate.Some? && i.endDate.Some?
      && i.startAt.None? && i.endAt.None? && !UsesLocal(i)
    else if UsesLocal(i) then
      i.startAt.None? && i.localStart.Some? && !(i.endAt.Some? && i.localEnd.Some?)
    else i.startAt.Some? && (i.allDay || (i.startFold == NoFold && i.endFold == NoFold))
  }

  /** Both dates parse, and the second day begins after the first. */
  ghost predicate GoodDates(i: TimeInput) {
    && i.zone.Some? && i.startDate.Some? && i.startDate.value.IsoDate?
    && i.endDate.Some? && i.endDate.value.IsoDate?
    && i.zone.value.midnight(i.startDate.value.day) < i.zone.value.midnight(i.endDate.value.day)
  }

  ghost predicate GoodLocals(i: TimeInput) {
    && i.localStart.Some? && Resolvable(i.localStart.value, i.zone, i.startFold)
    && (i.localEnd.Some? ==> Resolvable(i.localEnd.value, i.zone, i.endFold))
  }

  /** The requests that are accepted. */
  ghost predicate Acceptable(i: TimeInput) {
    && WellCombined(i)
    && if UsesDates(i) then GoodDates(i)
       else if UsesLocal(i) then GoodLocals(i)
       else i.allDay ==> i.zone.Some?
  }

  // ---------- What is stored ----------

  ghost predicate DatesYield(i: TimeInput, t: Times) {
    GoodDates(i) && WholeDays(i.zone.value, t) &&
    t.startDate == Some(i.startDate.value.day) && t.endDate == Some(i.endDate.value.day)
  }

  /** Local times: no dates are stored, all-day or not. */
  ghost predicate LocalsYield(i: TimeInput, t: Times) {
    && i.zone.Some? && i.localStart.Some?
    && FromLocal(i.localStart.value, i.zone.value, i.startFold, t.startAt)
    && t.startDate.None? && t.endDate.None?
    && if i.localEnd.None? then t.endAt == i.endAt
       else t.endAt.Some? && FromLocal(i.localEnd.value, i.zone.value, i.endFold, t.endAt.value)
  }

  /** Instants of an all-day schedule: from the start's local day to the end's, but
      at least one day. */
  ghost predicate DaysYield(z: Zone, start: int, end: Option<int>, t: Times) {
    var first := LocalDay(z, start);
    var last :=
      if end.Some? && first < LocalDay(z, end.value) then LocalDay(z, end.value) else first + 1;
    t == Times(Ns(z.midnight(first)), Some(Ns(z.midnight(last))), Some(first), Some(last))
  }

  ghost predicate Yields(i: TimeInput, t: Times) {
    if UsesDates(i) then DatesYield(i, t)
    else if UsesLocal(i) then LocalsYield(i, t)
    else
      && i.startAt.Some?
      && if i.allDay then i.zone.Some? && DaysYield(i.zone.value, i.startAt.value, i.endAt, t)
         else t == Times(i.startAt.value, i.endAt, None, None)
  }

  /** dateAtTimezoneMidnight. */
  method DateAtMidnight(date: DateText, zone: Option<Zone>) returns (r: Option<int>)
    ensures r == if date.IsoDate? && zone.Some? then Some(Ns(zone.value.midnight(date.day))) else None
  {
    if date.NotADate? || zone.None? {
      return None;
    }
    return Some(Ns(zone.value.midnight(date.day)));
  }

  /** The branch for explicit dates. */
  method FromDates(i: TimeInput) returns (r: Result<Times, InputError>)
    requires UsesDates(i) && i.allDay
    ensures r.Ok? <==> Acceptable(i)
    ensures r.Ok? ==> DatesYield(i, r.value)
    ensures r.Err? ==> r.error == InvalidFields
  {
    if i.startDate.None? || i.endDate.None? || i.startAt.Some? || i.localStart.Some? ||
       i.endAt.Some? || i.localEnd.Some? {
      return Err(InvalidFields);
    }
    var start := DateAtMidnight(i.startDate.value, i.zone);
    if start.None? {
      return Err(InvalidFields);
    }
    var end := DateAtMidnight(i.endDate.value, i.zone);
    if end.None? || end.value <= start.value {
      return Err(InvalidFields);
    }
    return Ok(Times(start.value, end, Some(i.startDate.value.day), Some(i.endDate.value.day)));
  }

  /** One local time, in nanoseconds. */
  method ResolveNs(wall: Option<int>, zone: Option<Zone>, fold: Fold)
    returns (r: Result<int, InputError>)
    ensures r.Ok? <==> Resolvable(wall, zone, fold)
    ensures r.Ok? ==> zone.Some? && FromLocal(wall, zone.value, fold, r.value)
    ensures r.Err? ==> r.error.Unresolved? && Unresolvable(wall, zone, fold, r.error.error)
  {
    var answer := ResolveLocalDateTime(wall, zone, fold);
    if answer.Err? {
      forall a: Instant | wall.Some? && zone.Some?
        ensures !Resolves(Candidates(zone.value, wall.value), fold, Ok(a))
      {
        NotBoth(Candidates(zone.value, wall.value), fold, a, answer.error);
      }
      return Err(Unresolved(answer.error));
    }
    return Ok(Ns(answer.value.t));
  }

  lemma NotBoth(p: Instant -> bool, fold: Fold, a: Instant, e: TimeError)
    requires Resolves(p, fold, Err(e))
    ensures !Resolves(p, fold, Ok(a))
  {
    if Resolves(p, fold, Ok(a)) {
      OneWay(p, fold, a, e);
    }
  }

  /** The branch for local times; the start's failure is reported before the end's. */
  method FromLocalTimes(i: TimeInput) returns (r: Result<Times, InputError>)
    requires !UsesDates(i) && UsesLocal(i)
    ensures r.Ok? <==> Acceptable(i)
    ensures r.Ok? ==> LocalsYield(i, r.value)
    ensures r == Err(InvalidFields) <==> !WellCombined(i)
    ensures r.Err? && WellCombined(i) ==>
      if !Resolvable(i.localStart.value, i.zone, i.startFold)
      then Unresolvable(i.localStart.value, i.zone, i.startFold, r.error.error)
      else i.localEnd.Some? && Unresolvable(i.localEnd.value, i.zone, i.endFold, r.error.error)
  {
    if i.startAt.Some? || i.localStart.None? || (i.endAt.Some? && i.localEnd.Some?) {
      return Err(InvalidFields);
    }
    var start := ResolveNs(i.localStart.value, i.zone, i.startFold);
    if start.Err? {
      return Err(start.error);
    }
    var end: Option<int> := None;
    if i.localEnd.Some? {
      var resolved := ResolveNs(i.localEnd.value, i.zone, i.endFold);
      if resolved.Err? {
        return Err(resolved.error);
      }
      end := Some(resolved.value);
    } else if i.endAt.Some? {
      end := i.endAt;
    }
    return Ok(Times(start.value, end, None, None));
  }

  /** The branch for an all-day schedule given by instants: widened to whole days. */
  method Widened(z: Zone, start: int, end: Option<int>) returns (t: Times)
    ensures DaysYield(z, start, end, t) && t.startDate.value < t.endDate.value
  {
    var startDate := LocalDay(z, start);
    var endDate := startDate + 1;
    if end.Some? {
      endDate := LocalDay(z, end.value);
      if endDate <= startDate {
        endDate := startDate + 1;
      }
    }
    return Times(
      Ns(z.midnight(startDate)), Some(Ns(z.midnight(endDate))), Some(startDate), Some(endDate));
  }

  /** resolveScheduleTimes: exactly the acceptable requests succeed, with exactly the
      times they stand for; only a local time can be unresolved. */
  method ResolveScheduleTimes(i: TimeInput) returns (r: Result<Times, InputError>)
    ensures r.Ok? <==> Acceptable(i)
    ensures r.Ok? ==> Yields(i, r.value)
    ensures r.Err? ==> (r.error.Unresolved? <==> WellCombined(i) && UsesLocal(i))
  {
    if i.allDay && (i.startDate.Some? || i.endDate.Some?) {
      r := FromDates(i);
      return;
    }
    if i.startDate.Some? || i.endDate.Some? {
      return Err(InvalidFields);
    }
    if i.localStart.Some? || i.localEnd.Some? {
      r := FromLocalTimes(i);
      return;
    }
    if i.startAt.None? {
      return Err(InvalidFields);
    }
    if i.allDay {
      if i.zone.None? {
        return Err(InvalidFields);
      }
      var t := Widened(i.zone.value, i.startAt.value, i.endAt);
      return Ok(t);
    }
    if i.startFold != NoFold || i.endFold != NoFold {
      return Err(InvalidFields);
    }
    return Ok(Times(i.startAt.value, i.endAt, None, None));
  }

  // ---------- Normal form ----------

  /** Timed without dates, or all-day on whole days. */
  ghost predicate NormalTimes(z: Zone, allDay: bool, t: Times) {
    if allDay then WholeDays(z, t) && t.startDate.value < t.endDate.value
    else t.startDate.None? && t.endDate.None?
  }

  /** What an accepted request stores is in normal form exactly if it is not an
      all-day request given by local times. */
  lemma NormalUnlessAllDayByLocalTime(i: TimeInput, t: Times)
    requires Acceptable(i) && Yields(i, t) && i.zone.Some? && DaysAscend(i.zone.value)
    ensures NormalTimes(i.zone.value, i.allDay, t) <==> !(i.allDay && UsesLocal(i))
  {
  }

  lemma UtcReads(w: int)
    ensures DaysAscend(Utc()) && Only(Candidates(Utc(), w), At(w))
  {
    assert Utc().offset(w + PROBES[0]) == 0;
    forall a: Instant
      ensures Candidates(Utc(), w)(a) <==> a == At(w)
    {
      assert Local(Utc(), a.t) == a.t;
    }
  }

  function AllDayAt(w: int): TimeInput {
    TimeInput(None, None, Some(Some(w)), None, None, None, true, Some(Utc()), NoFold, NoFold)
  }

  /** Such requests exist: an all-day request with a local start in UTC is accepted
      for every reading, stores no dates, and so is never in normal form. */
  lemma AllDayByLocalTimeIsNotNormal(w: int)
    ensures Acceptable(AllDayAt(w)) && Yields(AllDayAt(w), Times(Ns(w), None, None, None))
    ensures forall t: Times | Yields(AllDayAt(w), t) ::
      t == Times(Ns(w), None, None, None) && !NormalTimes(Utc(), true, t)
  {
    UtcReads(w);
    assert Resolves(Candidates(Utc(), w), NoFold, Ok(At(w)));
    assert Resolvable(Some(w), Some(Utc()), NoFold);
    assert FromLocal(Some(w), Utc(), NoFold, Ns(w));
    forall t: Times | Yields(AllDayAt(w), t)
      ensures t == Times(Ns(w), None, None, None)
    {
      var a: Instant :| t.startAt == Ns(a.t) && Resolves(Candidates(Utc(), w), NoFold, Ok(a));
      assert Candidates(Utc(), w)(a);
    }
  }
}
