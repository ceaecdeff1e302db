/**
 The editable fields of a schedule, the merge of a PATCH into them, and the
 shift a following-scope PATCH carries from the selected occurrence to the later
 ones.  Instants are nanoseconds, dates are day numbers.
 */
module Patching {
  import opened Prelude
  import opened LocalTime
  import opened Calendar

  /** time.LoadLocation: the zone of a name, if the name is known. */
  type Zones = string -> Option<Zone>

  datatype Error =
    | NotFound | InvalidSchedule | NotRecurring | RevisionConflict | IdempotencyConflict
    | InvalidReminder | ReminderLimit | DuplicateReminder | AccountDeleted

  datatype Fields = Fields(
    title: string, description: Option<string>, location: Option<string>,
    startAt: int, endAt: Option<int>, allDay: bool, timezone: string,
    startDate: Option<int>, endDate: Option<int>, status: string)

  datatype Scope = This | Following | OtherScope

  /** An outer `None` leaves a field alone; an inner `None` clears it. */
  datatype Patch = Patch(
    expectedRevision: Option<int>, scope: Scope, startFold: Fold, endFold: Fold,
    title: Option<string>, description: Option<Option<string>>, location: Option<Option<string>>,
    startAt: Option<int>, endAt: Option<Option<int>>, allDay: Option<bool>,
    timezone: Option<string>, startDate: Option<Option<DateText>>,
    endDate: Option<Option<DateText>>, status: Option<string>)

  function Or<T>(patch: Option<T>, before: T): T {
    if patch.Some? then patch.value else before
  }

  function Named(timezone: string): string {
    if timezone == "" then "UTC" else timezone
  }

  function Utc(): Zone { Zone(t => 0, d => d * DAY) }

  /** mustLoadLocation: unknown names fall back to UTC. */
  function ZoneOrUtc(zones: Zones, name: string): Zone {
    if zones(name).Some? then zones(name).value else Utc()
  }

  /** A date after patching: absent, or the outcome of parsing its text. */
  function PatchedDate(patch: Option<Option<DateText>>, before: Option<int>): Option<Option<int>> {
    if patch.Some? then
      if patch.value.None? then None
      else if patch.value.value.IsoDate? then Some(Some(patch.value.value.day)) else Some(None)
    else if before.Some? then Some(before) else None
  }

  /** The fields with every date dropped: what a timed schedule stores. */
  function MergeTimed(before: Fields, patch: Patch): Fields {
    Fields(
      Or(patch.title, before.title), Or(patch.description, before.description),
      Or(patch.location, before.location), Or(patch.startAt, before.startAt),
      Or(patch.endAt, before.endAt), Or(patch.allDay, before.allDay),
      Named(Or(patch.timezone, before.timezone)), None, None, Or(patch.status, before.status))
  }

  /** All-day fields occupy whole local days: [startDate, endDate). */
  function OnDates(f: Fields, z: Zone, startDate: int, endDate: int): Fields {
    f.(startAt := Ns(z.midnight(startDate)), endAt := Some(Ns(z.midnight(endDate))),
       startDate := Some(startDate), endDate := Some(endDate))
  }

  /** The merge of a PATCH into the fields of the row it locks. */
  function Merge(zones: Zones, before: Fields, patch: Patch): Result<Fields, Error> {
    var f := MergeTimed(before, patch);
    if !f.allDay then Ok(f)
    else if zones(f.timezone).None? then Err(InvalidSchedule)
    else
      var z := zones(f.timezone).value;
      var startDate := Or(PatchedDate(patch.startDate, before.startDate), Some(LocalDay(z, f.startAt)));
      if startDate.None? then Err(InvalidSchedule)
      else
        var endDate := Or(PatchedDate(patch.endDate, before.endDate), Some(startDate.value + 1));
        if endDate.None? || endDate.value <= startDate.value then Err(InvalidSchedule)
        else Ok(OnDates(f, z, startDate.value, endDate.value))
  }

  /** The end, if any, is at least a millisecond after the start. */
  predicate Spaced(f: Fields) {
    f.endAt.Some? ==> f.endAt.value - f.startAt >= 1_000_000
  }

  function Validated(r: Result<Fields, Error>): Result<Fields, Error> {
    if r.Ok? && !Spaced(r.value) then Err(InvalidSchedule) else r
  }

  /** The fields a patch sets outright, one after the other. */
  method PatchPlainFields(before: Fields, patch: Patch) returns (fields: Fields)
    ensures fields == MergeTimed(before, patch).(
      startDate := before.startDate, endDate := before.endDate)
  {
    var title, description, location := before.title, before.description, before.location;
    if patch.title.Some? { title := patch.title.value; }
    if patch.description.Some? { description := patch.description.value; }
    if patch.location.Some? { location := patch.location.value; }
    var startAt, endAt, allDay := before.startAt, before.endAt, before.allDay;
    if patch.startAt.Some? { startAt := patch.startAt.value; }
    if patch.endAt.Some? { endAt := patch.endAt.value; }
    if patch.allDay.Some? { allDay := patch.allDay.value; }
    var status, timezone := before.status, before.timezone;
    if patch.status.Some? { status := patch.status.value; }
    if patch.timezone.Some? { timezone := patch.timezone.value; }
    if timezone == "" { timezone := "UTC"; }
    fields := Fields(
      title, description, location, startAt, endAt, allDay, timezone,
      before.startDate, before.endDate, status);
  }

  /** The date a patched date field holds, `missing` standing in for none. */
  method PatchDate(patch: Option<Option<DateText>>, before: Option<int>, missing: int)
    returns (r: Option<int>)
    ensures r == Or(PatchedDate(patch, before), Some(missing))
  {
    if patch.None? {
      return if before.Some? then before else Some(missing);
    }
    if patch.value.None? {
      return Some(missing);
    }
    match patch.value.value
    case NotADate => return None;
    case IsoDate(day) => return Some(day);
  }

  /** mergeSchedulePatchFields, field by field. */
  method MergeSchedulePatchFields(zones: Zones, before: Fields, patch: Patch)
    returns (r: Result<Fields, Error>)
    ensures r == Merge(zones, before, patch)
  {
    var fields := PatchPlainFields(before, patch);
    if !fields.allDay {
      return Ok(fields.(startDate := None, endDate := None));
    }
    var zone := zones(fields.timezone);
    if zone.None? {
      return Err(InvalidSchedule);
    }
    var start := PatchDate(patch.startDate, before.startDate, LocalDay(zone.value, fields.startAt));
    if start.None? {
      return Err(InvalidSchedule);
    }
    var end := PatchDate(patch.endDate, before.endDate, start.value + 1);
    if end.None? || end.value <= start.value {
      return Err(InvalidSchedule);
    }
    fields := fields.(startDate := start, endDate := end);
    fields := fields.(startAt := Ns(zone.value.midnight(start.value)));
    fields := fields.(endAt := Some(Ns(zone.value.midnight(end.value))));
    return Ok(fields);
  }

  // ---------- The following scope ----------

  /** How far the patch moves the selected occurrence on its own wall clock; the
      two readings are taken in its old and in its new timezone. */
  function WallShift(zones: Zones, selected: Fields, merged: Fields): int {
    LocalNs(ZoneOrUtc(zones, merged.timezone), merged.startAt)
    - LocalNs(ZoneOrUtc(zones, Named(selected.timezone)), selected.startAt)
  }

  /** The wall-clock length of the selected occurrence after the patch. */
  function WallLength(zones: Zones, merged: Fields): int {
    if merged.endAt.None? then 0
    else
      var z := ZoneOrUtc(zones, merged.timezone);
      LocalNs(z, merged.endAt.value) - LocalNs(z, merged.startAt)
  }

  function DayShift(selected: Fields, merged: Fields): int {
    if selected.startDate.Some? && merged.startDate.Some?
    then merged.startDate.value - selected.startDate.value else 0
  }

  function DaySpan(merged: Fields): int {
    if merged.startDate.Some? && merged.endDate.Some?
    then merged.endDate.value - merged.startDate.value else 1
  }

  predicate MovesTime(patch: Patch) {
    patch.startAt.Some? || patch.endAt.Some? || patch.timezone.Some? || patch.allDay.Some?
  }

  /** The new end of a later timed occurrence whose start wall is `wall`. */
  function ShiftedEnd(
    z: Zone, wall: int, length: int, patch: Patch, merged: Fields, startAt: int)
    : Result<Option<int>, Error>
  {
    if patch.endAt == Some(None) || merged.endAt.None? then Ok(None)
    else
      var r := ResolveWall(z, wall + length, patch.endFold);
      if r.Err? || r.value.t <= startAt then Err(InvalidSchedule) else Ok(Some(r.value.t))
  }

  /** A later timed occurrence moved to the wall reading `wall`. */
  function ShiftedTimes(
    z: Zone, wall: int, length: int, patch: Patch, merged: Fields, fields: Fields)
    : Result<Fields, Error>
  {
    var start := ResolveWall(z, wall, patch.startFold);
    if start.Err? then Err(InvalidSchedule)
    else
      var end := ShiftedEnd(z, wall, length, patch, merged, start.value.t);
      if end.Err? then Err(InvalidSchedule)
      else Ok(fields.(startAt := start.value.t, endAt := end.value))
  }

  /** A later occurrence, already merged into `fields`, moved along. */
  function Shifted(
    zones: Zones, selected: Fields, merged: Fields, before: Fields, patch: Patch, fields: Fields)
    : Result<Fields, Error>
  {
    if fields.allDay then
      var z := ZoneOrUtc(zones, fields.timezone);
      var date := Or(before.startDate, LocalDay(z, before.startAt)) + DayShift(selected, merged);
      Ok(OnDates(fields, z, date, date + DaySpan(merged)))
    else if MovesTime(patch) then
      if zones(fields.timezone).None? then Err(InvalidSchedule)
      else
        var z := zones(fields.timezone).value;
        ShiftedTimes(
          z, LocalNs(z, before.startAt) + WallShift(zones, selected, merged),
          WallLength(zones, merged), patch, merged, fields)
    else Ok(fields)
  }

  /** The fields written to a later occurrence, `selected` having become `merged`. */
  function FollowingFields(
    zones: Zones, selected: Fields, merged: Fields, before: Fields, patch: Patch)
    : Result<Fields, Error>
  {
    var m := Merge(zones, before, patch);
    if m.Err? then m
    else Validated(Shifted(zones, selected, merged, before, patch, m.value))
  }

  /** The new end of a later timed occurrence. */
  method ShiftEnd(zone: Zone, wall: int, length: int, patch: Patch, merged: Fields, startAt: int)
    returns (r: Result<Option<int>, Error>)
    ensures r == ShiftedEnd(zone, wall, length, patch, merged, startAt)
  {
    if patch.endAt.Some? && patch.endAt.value.None? {
      return Ok(None);
    }
    if merged.endAt.None? {
      return Ok(None);
    }
    var endAt := ResolveServiceWall(wall + length, Some(zone), patch.endFold);
    if endAt.Err? || endAt.value.t <= startAt {
      return Err(InvalidSchedule);
    }
    return Ok(Some(endAt.value.t));
  }

  /** The update loop's branch for a later timed occurrence. */
  method ShiftTimed(
    zone: Zone, targetWall: int, length: int, patch: Patch, merged: Fields, fields: Fields)
    returns (r: Result<Fields, Error>)
    ensures r == ShiftedTimes(zone, targetWall, length, patch, merged, fields)
  {
    var startAt := ResolveServiceWall(targetWall, Some(zone), patch.startFold);
    if startAt.Err? {
      return Err(InvalidSchedule);
    }
    var endAt := ShiftEnd(zone, targetWall, length, patch, merged, startAt.value.t);
    if endAt.Err? {
      return Err(InvalidSchedule);
    }
    return Ok(fields.(startAt := startAt.value.t, endAt := endAt.value));
  }

  /** The update loop's branch for a later all-day occurrence. */
  method ShiftAllDay(
    zone: Zone, selected: Fields, merged: Fields, before: Fields, fields: Fields)
    returns (r: Fields)
    ensures var date := Or(before.startDate, LocalDay(zone, before.startAt)) + DayShift(selected, merged);
      r == OnDates(fields, zone, date, date + DaySpan(merged))
  {
    var date := LocalDay(zone, before.startAt);
    if before.startDate.Some? {
      date := before.startDate.value;
    }
    date := date + DayShift(selected, merged);
    var end := date + DaySpan(merged);
    r := fields.(
      startDate := Some(date), endDate := Some(end),
      startAt := Ns(zone.midnight(date)), endAt := Some(Ns(zone.midnight(end))));
  }

  method ShiftOne(
    zones: Zones, selected: Fields, merged: Fields, before: Fields, patch: Patch, fields: Fields)
    returns (r: Result<Fields, Error>)
    ensures r == Shifted(zones, selected, merged, before, patch, fields)
  {
    if fields.allDay {
      var shifted := ShiftAllDay(
        ZoneOrUtc(zones, fields.timezone), selected, merged, before, fields);
      return Ok(shifted);
    }
    if !MovesTime(patch) {
      return Ok(fields);
    }
    var zone := zones(fields.timezone);
    if zone.None? {
      return Err(InvalidSchedule);
    }
    var targetWall := LocalNs(zone.value, before.startAt) + WallShift(zones, selected, merged);
    r := ShiftTimed(zone.value, targetWall, WallLength(zones, merged), patch, merged, fields);
  }

  /** The body of the update loop for one later occurrence. */
  method ShiftFollowing(
    zones: Zones, selected: Fields, merged: Fields, before: Fields, patch: Patch)
    returns (r: Result<Fields, Error>)
    ensures r == FollowingFields(zones, selected, merged, before, patch)
  {
    r := MergeSchedulePatchFields(zones, before, patch);
    if r.Err? {
      return;
    }
    r := ShiftOne(zones, selected, merged, before, patch, r.value);
    if r.Ok? && r.value.endAt.Some? && r.value.endAt.value - r.value.startAt < 1_000_000 {
      return Err(InvalidSchedule);
    }
  }

  // ---------- Time normal form ----------

  /** Timed without dates, or all-day on a nonempty range of local days. */
  ghost predicate Normal(zones: Zones, f: Fields) {
    && Spaced(f)
    && if f.allDay then
         && f.startDate.Some? && f.endDate.Some? && f.startDate.value < f.endDate.value
         && var z := ZoneOrUtc(zones, f.timezone);
            f.startAt == Ns(z.midnight(f.startDate.value)) &&
            f.endAt == Some(Ns(z.midnight(f.endDate.value)))
       else f.startDate.None? && f.endDate.None?
  }

  /** A successful PATCH leaves the row it names in normal form. */
  lemma MergeIsNormal(zones: Zones, before: Fields, patch: Patch)
    requires Validated(Merge(zones, before, patch)).Ok?
    ensures Normal(zones, Validated(Merge(zones, before, patch)).value)
  {
  }

  /** So does a following-scope PATCH with every later occurrence. */
  lemma FollowingIsNormal(
    zones: Zones, selected: Fields, merged: Fields, before: Fields, patch: Patch)
    requires Normal(zones, merged)
    requires FollowingFields(zones, selected, merged, before, patch).Ok?
    ensures Normal(zones, FollowingFields(zones, selected, merged, before, patch).value)
  {
  }

  // ---------- One common shift ----------

  lemma ResolvedReadsBack(z: Zone, wall: int, fold: Fold)
    requires ResolveWall(z, wall, fold).Ok?
    ensures LocalNs(z, ResolveWall(z, wall, fold).value.t) == wall
  {
    ResolveWallAnswers(z, wall, fold);
    var a := ResolveWall(z, wall, fold).value;
    assert CandidatesNs(z, wall)(a);
    ReadsBack(z, wall, a.t);
  }

  lemma ShiftedStartReads(
    z: Zone, wall: int, length: int, patch: Patch, merged: Fields, fields: Fields)
    requires ShiftedTimes(z, wall, length, patch, merged, fields).Ok?
    ensures var f := ShiftedTimes(z, wall, length, patch, merged, fields).value;
      f.timezone == fields.timezone && LocalNs(z, f.startAt) == wall
  {
    ResolvedReadsBack(z, wall, patch.startFold);
  }

  lemma ShiftedEndReads(
    z: Zone, wall: int, length: int, patch: Patch, merged: Fields, startAt: int)
    requires ShiftedEnd(z, wall, length, patch, merged, startAt).Ok?
    ensures var end := ShiftedEnd(z, wall, length, patch, merged, startAt).value;
      && (end.Some? ==> LocalNs(z, end.value) == wall + length)
      && (end.None? <==> patch.endAt == Some(None) || merged.endAt.None?)
  {
    if patch.endAt != Some(None) && merged.endAt.Some? {
      ResolvedReadsBack(z, wall + length, patch.endFold);
    }
  }

  /** `f` starts at the reading `wall`, and ends `length` later if it ends. */
  ghost predicate ReadsAs(z: Zone, wall: int, length: int, patch: Patch, merged: Fields, f: Fields) {
    && LocalNs(z, f.startAt) == wall
    && (f.endAt.Some? ==> LocalNs(z, f.endAt.value) == wall + length)
    && (f.endAt.None? <==> patch.endAt == Some(None) || merged.endAt.None?)
  }

  lemma ShiftedReads(
    z: Zone, wall: int, length: int, patch: Patch, merged: Fields, fields: Fields)
    requires ShiftedTimes(z, wall, length, patch, merged, fields).Ok?
    ensures ReadsAs(
      z, wall, length, patch, merged,
      ShiftedTimes(z, wall, length, patch, merged, fields).value)
  {
    ShiftedStartReads(z, wall, length, patch, merged, fields);
    var start := ResolveWall(z, wall, patch.startFold).value.t;
    ShiftedEndReads(z, wall, length, patch, merged, start);
  }

  lemma ReadsOf(
    z: Zone, wall: int, length: int, patch: Patch, merged: Fields, fields: Fields, f: Fields)
    requires ShiftedTimes(z, wall, length, patch, merged, fields) == Ok(f)
    ensures ReadsAs(z, wall, length, patch, merged, f)
  {
    ShiftedReads(z, wall, length, patch, merged, fields);
  }

  /** What the following scope writes to a later timed occurrence. */
  lemma FollowingIsShifted(
    zones: Zones, selected: Fields, merged: Fields, before: Fields, patch: Patch, z: Zone,
    wall: int, length: int, f: Fields)
    requires FollowingFields(zones, selected, merged, before, patch) == Ok(f)
    requires MovesTime(patch) && !Or(patch.allDay, before.allDay)
    requires Some(z) == zones(Named(Or(patch.timezone, before.timezone)))
    requires wall == LocalNs(z, before.startAt) + WallShift(zones, selected, merged)
    requires length == WallLength(zones, merged)
    ensures ShiftedTimes(z, wall, length, patch, merged, MergeTimed(before, patch)) == Ok(f)
  {
  }

  lemma FollowingKnowsItsZone(
    zones: Zones, selected: Fields, merged: Fields, before: Fields, patch: Patch, f: Fields)
    requires FollowingFields(zones, selected, merged, before, patch) == Ok(f)
    requires MovesTime(patch) && !Or(patch.allDay, before.allDay)
    ensures f.timezone == Named(Or(patch.timezone, before.timezone)) && zones(f.timezone).Some?
  {
  }

  /** Every later timed occurrence is moved by the same wall-clock amount, read
      in its own zone, and gets the same wall-clock length. */
  lemma LaterShift(
    zones: Zones, selected: Fields, merged: Fields, before: Fields, patch: Patch, f: Fields)
    requires FollowingFields(zones, selected, merged, before, patch) == Ok(f)
    requires MovesTime(patch) && !Or(patch.allDay, before.allDay)
    ensures zones(f.timezone).Some?
    ensures var z := zones(f.timezone).value;
      ReadsAs(
        z, LocalNs(z, before.startAt) + WallShift(zones, selected, merged),
        WallLength(zones, merged), patch, merged, f)
  {
    FollowingKnowsItsZone(zones, selected, merged, before, patch, f);
    var z := zones(f.timezone).value;
    var wall := LocalNs(z, before.startAt) + WallShift(zones, selected, merged);
    var length := WallLength(zones, merged);
    FollowingIsShifted(zones, selected, merged, before, patch, z, wall, length, f);
    ReadsOf(z, wall, length, patch, merged, MergeTimed(before, patch), f);
  }

  /** If the patch names no timezone, the selected occurrence itself moves by
      that same amount: the shift is uniform over the series. */
  lemma UniformShift(
    zones: Zones, selected: Fields, merged: Fields, before: Fields, patch: Patch)
    requires merged.timezone == Named(selected.timezone)
    requires zones(merged.timezone).Some?
    requires FollowingFields(zones, selected, merged, before, patch).Ok?
    requires MovesTime(patch) && !Or(patch.allDay, before.allDay)
    ensures var f := FollowingFields(zones, selected, merged, before, patch).value;
      && zones(f.timezone).Some?
      && var z, zs := zones(f.timezone).value, zones(merged.timezone).value;
         LocalNs(z, f.startAt) - LocalNs(z, before.startAt) ==
         LocalNs(zs, merged.startAt) - LocalNs(zs, selected.startAt)
  {
    LaterShift(
      zones, selected, merged, before, patch,
      FollowingFields(zones, selected, merged, before, patch).value);
  }

  /** With a new timezone the rows still agree exactly when the old and the new
      zone had the same offset at the selected occurrence's old start. */
  lemma ShiftUniformIffOffsetsAgree(
    zones: Zones, selected: Fields, merged: Fields, before: Fields, patch: Patch)
    requires zones(merged.timezone).Some? && zones(Named(selected.timezone)).Some?
    requires patch.timezone.Some? && merged.timezone == Named(patch.timezone.value)
    requires FollowingFields(zones, selected, merged, before, patch).Ok?
    requires !Or(patch.allDay, before.allDay)
    ensures var f := FollowingFields(zones, selected, merged, before, patch).value;
      var prior, next := zones(Named(selected.timezone)).value, zones(merged.timezone).value;
      LocalNs(next, f.startAt) - LocalNs(next, before.startAt) ==
      LocalNs(next, merged.startAt) - LocalNs(next, selected.startAt)
      <==> prior.offset(Sec(selected.startAt)) == next.offset(Sec(selected.startAt))
  {
    LaterShift(
      zones, selected, merged, before, patch,
      FollowingFields(zones, selected, merged, before, patch).value);
  }

  /** All-day series: every later occurrence moves by the selected one's number
      of days and takes its number of days. */
  lemma UniformDayShift(
    zones: Zones, selected: Fields, merged: Fields, before: Fields, patch: Patch)
    requires FollowingFields(zones, selected, merged, before, patch).Ok?
    requires Or(patch.allDay, before.allDay) && Normal(zones, merged) && merged.allDay
    requires before.startDate.Some? && selected.startDate.Some?
    ensures var f := FollowingFields(zones, selected, merged, before, patch).value;
      && f.startDate.Some? && f.endDate.Some?
      && f.startDate.value - before.startDate.value ==
         merged.startDate.value - selected.startDate.value
      && f.endDate.value - f.startDate.value == merged.endDate.value - merged.startDate.value
  {
  }

  // ---------- A timezone-only patch that tears a series apart ----------

  function Hour(): Zone { Zone(t => 3600, d => d * DAY - 3600) }

  function TwoZones(): Zones {
    name => if name == "UTC" then Some(Utc()) else if name == "One" then Some(Hour()) else None
  }

  function Daily(day: int, timezone: string): Fields {
    Fields("x", None, None, Ns(day * DAY), None, false, timezone, None, None, "confirmed")
  }

  function ToZone(timezone: string): Patch {
    Patch(
      None, Following, NoFold, NoFold, None, None, None, None, None, None,
      Some(timezone), None, None, None)
  }

  lemma OneHourResolves(w: int)
    ensures ResolveWall(Hour(), w, NoFold) == Ok(At(w - Ns(3600)))
  {
    ResolveWallAnswers(Hour(), w, NoFold);
    var p := CandidatesNs(Hour(), w);
    forall a: Instant
      ensures p(a) <==> a == At(w - Ns(3600))
    {
      WholeSeconds(w, 3600);
      assert Hour().offset(Sec(w) + PROBES[0]) == 3600;
    }
    assert Only(p, At(w - Ns(3600)));
    AnswerUnique(p, NoFold, ResolveWall(Hour(), w, NoFold), Ok(At(w - Ns(3600))));
  }

  lemma RenamedZone(day: int)
    ensures Merge(TwoZones(), Daily(day, "UTC"), ToZone("One")) == Ok(Daily(day, "One"))
    ensures LocalNs(Hour(), Daily(day, "UTC").startAt) == Ns(day * DAY) + Ns(3600)
  {
  }

  lemma OneHourShift(w: int, length: int, patch: Patch, merged: Fields, fields: Fields)
    requires patch.startFold == NoFold && merged.endAt.None?
    ensures ShiftedTimes(Hour(), w, length, patch, merged, fields) ==
      Ok(fields.(startAt := w - Ns(3600), endAt := None))
  {
    OneHourResolves(w);
  }

  lemma LaterRowMoves(day: int)
    ensures Shifted(
      TwoZones(), Daily(0, "UTC"), Daily(0, "One"), Daily(day, "UTC"), ToZone("One"),
      Daily(day, "One")) == Ok(Daily(day, "One").(startAt := Ns(day * DAY) + Ns(3600)))
  {
    RenamedZone(0);
    RenamedZone(day);
    var selected, merged, fields := Daily(0, "UTC"), Daily(0, "One"), Daily(day, "One");
    assert TwoZones()("One") == Some(Hour());
    assert WallShift(TwoZones(), selected, merged) == Ns(3600);
    OneHourShift(
      Ns(day * DAY) + Ns(3600) + Ns(3600), WallLength(TwoZones(), merged), ToZone("One"),
      merged, fields);
  }

  /** Changing only the timezone leaves the selected occurrence's instant alone
      and moves every later one by an hour. */
  lemma TimezoneChangeMovesLaterRows(day: int)
    ensures var patch, selected, later := ToZone("One"), Daily(0, "UTC"), Daily(day, "UTC");
      var merged := Merge(TwoZones(), selected, patch);
      && merged.Ok? && merged.value.startAt == selected.startAt
      && var f := FollowingFields(TwoZones(), selected, merged.value, later, patch);
         f.Ok? && f.value.startAt == later.startAt + Ns(3600)
  {
    RenamedZone(0);
    RenamedZone(day);
    LaterRowMoves(day);
  }

  // ---------- Millisecond storage ----------

  /** DATETIME(3) keeps milliseconds, by rounding half up or by truncation. */
  function Stored(t: int, rounds: bool): int {
    if rounds then (t + 500_000) / 1_000_000 else t / 1_000_000
  }

  /** One millisecond is exactly the gap that survives storage everywhere: from
      it on the stored end always follows the stored start, and any shorter gap
      collapses for some start. */
  lemma MillisecondIsTheThreshold(gap: int, rounds: bool)
    ensures gap >= 1_000_000 <==>
      forall start :: Stored(start, rounds) < Stored(start + gap, rounds)
  {
    if gap < 1_000_000 {
      var start := if rounds then -500_000 else 0;
      assert Stored(start, rounds) == 0 && Stored(start + gap, rounds) <= 0;
    }
  }
}
