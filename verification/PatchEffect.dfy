/**
 What a PATCH does to the schedules it reaches, field by field, and when it does
 nothing.
 */
module PatchEffect {
  import opened Prelude
  import LocalTime
  import opened Calendar
  import opened Patching
  import opened Ledger
  import opened Changes
  import opened Structure
  import opened Runs
  import opened Claims
  import opened Tails
  import opened CallEffect

  // ---------- What is asked for ----------

  /** The timezone asked for, UTC standing for the empty name. */
  function AskedZone(before: Fields, patch: Patch): string {
    var name := if patch.timezone.Some? then patch.timezone.value else before.timezone;
    if name == "" then "UTC" else name
  }

  function AskedAllDay(before: Fields, patch: Patch): bool {
    if patch.allDay.Some? then patch.allDay.value else before.allDay
  }

  function AskedStart(before: Fields, patch: Patch): int {
    if patch.startAt.Some? then patch.startAt.value else before.startAt
  }

  function AskedEnd(before: Fields, patch: Patch): Option<int> {
    if patch.endAt.Some? then patch.endAt.value else before.endAt
  }

  /** The first day: the patch's date, else the row's, else the start's local day. */
  function AskedFirstDay(z: LocalTime.Zone, before: Fields, patch: Patch): int {
    match patch.startDate
    case Some(Some(IsoDate(day))) => day
    case None =>
      if before.startDate.Some? then before.startDate.value
      else LocalTime.Local(z, LocalTime.Sec(AskedStart(before, patch))) / LocalTime.DAY
    case _ => LocalTime.Local(z, LocalTime.Sec(AskedStart(before, patch))) / LocalTime.DAY
  }

  /** The day after the last: the patch's date, else the row's, else one day on. */
  function AskedEndDay(z: LocalTime.Zone, before: Fields, patch: Patch): int {
    match patch.endDate
    case Some(Some(IsoDate(day))) => day
    case None =>
      if before.endDate.Some? then before.endDate.value
      else AskedFirstDay(z, before, patch) + 1
    case _ => AskedFirstDay(z, before, patch) + 1
  }

  /** The fields that have nothing to do with time: the patch's value where it has
      one, the old value where it has none. */
  ghost predicate PlainAsAsked(before: Fields, patch: Patch, after: Fields) {
    && after.title == (if patch.title.Some? then patch.title.value else before.title)
    && after.description ==
       (if patch.description.Some? then patch.description.value else before.description)
    && after.location == (if patch.location.Some? then patch.location.value else before.location)
    && after.status == (if patch.status.Some? then patch.status.value else before.status)
    && after.allDay == AskedAllDay(before, patch)
    && after.timezone == AskedZone(before, patch)
  }

  /** And the times: as asked for if timed, whole local days if all-day. */
  ghost predicate AsAsked(zones: Zones, before: Fields, patch: Patch, after: Fields) {
    && PlainAsAsked(before, patch, after)
    && if AskedAllDay(before, patch) then
         && zones(after.timezone).Some?
         && var z := zones(after.timezone).value;
            && after.startDate == Some(AskedFirstDay(z, before, patch))
            && after.endDate == Some(AskedEndDay(z, before, patch))
            && after.startAt == LocalTime.Ns(z.midnight(AskedFirstDay(z, before, patch)))
            && after.endAt == Some(LocalTime.Ns(z.midnight(AskedEndDay(z, before, patch))))
       else
         && after.startAt == AskedStart(before, patch) && after.endAt == AskedEnd(before, patch)
         && after.startDate.None? && after.endDate.None?
  }

  /** A date that is given must parse. */
  predicate Parses(date: Option<Option<DateText>>) {
    date.Some? && date.value.Some? ==> date.value.value.IsoDate?
  }

  /** The patch can be merged: an end follows its start by a millisecond at least; an
      all-day row has a known zone, dates that parse, and days in order. */
  ghost predicate Mergeable(zones: Zones, before: Fields, patch: Patch) {
    if AskedAllDay(before, patch) then
      && zones(AskedZone(before, patch)).Some?
      && Parses(patch.startDate) && Parses(patch.endDate)
      && var z := zones(AskedZone(before, patch)).value;
         var first, end := AskedFirstDay(z, before, patch), AskedEndDay(z, before, patch);
         first < end &&
         LocalTime.Ns(z.midnight(end)) - LocalTime.Ns(z.midnight(first)) >= 1_000_000
    else
      AskedEnd(before, patch).Some? ==>
        AskedEnd(before, patch).value - AskedStart(before, patch) >= 1_000_000
  }

  /** Merging succeeds exactly on mergeable patches, with the fields asked for, and
      fails with one error only. */
  lemma MergeAsAsked(zones: Zones, before: Fields, patch: Patch)
    ensures match Validated(Merge(zones, before, patch))
      case Ok(after) => Mergeable(zones, before, patch) && AsAsked(zones, before, patch, after)
      case Err(error) => !Mergeable(zones, before, patch) && error == InvalidSchedule
  {
    if AskedAllDay(before, patch) && zones(AskedZone(before, patch)).Some? {
      LocalTime.ReadingNs(zones(AskedZone(before, patch)).value, AskedStart(before, patch));
    }
  }

  /** What is asked for is one thing. */
  lemma AskedIsUnique(zones: Zones, before: Fields, patch: Patch, a: Fields, b: Fields)
    requires AsAsked(zones, before, patch, a) && AsAsked(zones, before, patch, b)
    ensures a == b
  {
  }

  // ---------- One schedule ----------

  /** The row after a PATCH that took effect on it. */
  ghost predicate RowAsAsked(zones: Zones, before: Row, patch: Patch, after: Row) {
    && AsAsked(zones, before.fields, patch, after.fields)
    && after.owner == before.owner && after.source == before.source
    && after.reminders == before.reminders && after.slot == before.slot
    && after.revision == before.revision + 1
  }

  /** A PATCH of one schedule that is not a repetition and not by an erased user: which
      error it meets, and otherwise what it leaves. */
  lemma UpdateOutcome(zones: Zones, s: State, c: Call)
    requires c.Update? && c.patch.scope == This && c.user !in s.tombstones
    requires c.key == "" || !Live(s, KeyOf(c))
    ensures var t, r := After(zones, s, c), ReplyTo(zones, s, c);
      if !(c.id in s.schedules && s.schedules[c.id].owner == c.user) then
        t == s && r == Refused(NotFound)
      else if c.patch.expectedRevision.Some? &&
              c.patch.expectedRevision.value != s.schedules[c.id].revision then
        t == s && r == Refused(RevisionConflict)
      else if !Mergeable(zones, s.schedules[c.id].fields, c.patch) then
        t == s && r == Refused(InvalidSchedule)
      else
        && t.schedules.Keys == s.schedules.Keys
        && RowAsAsked(zones, s.schedules[c.id], c.patch, t.schedules[c.id])
        && (forall k | k in s.schedules && k != c.id :: t.schedules[k] == s.schedules[k])
        && r == Saved(c.id, t.schedules[c.id])
  {
    if c.id in s.schedules {
      MergeAsAsked(zones, s.schedules[c.id].fields, c.patch);
    }
    if TakesEffect(zones, s, c) {
      PlainPatchWrites(zones, s, c);
    }
  }

  /** A PATCH of an unknown scope is refused before anything is read. */
  lemma UnknownScopeIsRefused(zones: Zones, s: State, c: Call)
    requires c.Update? && c.patch.scope != This && c.patch.scope != Following
    ensures After(zones, s, c) == s && ReplyTo(zones, s, c) == Refused(InvalidSchedule)
  {
  }

  /** The same of any PATCH that takes effect, whatever its scope: the schedule it
      names is as asked for, and so is the reply. */
  lemma UpdateWritesWhatIsAsked(zones: Zones, s: State, c: Call)
    requires c.Update? && Placed(s) && TakesEffect(zones, s, c)
    ensures c.id in s.schedules && c.id in After(zones, s, c).schedules
    ensures RowAsAsked(zones, s.schedules[c.id], c.patch, After(zones, s, c).schedules[c.id])
    ensures ReplyTo(zones, s, c) == Saved(c.id, After(zones, s, c).schedules[c.id])
  {
    if c.patch.scope == Following {
      FollowingEffect(zones, s, c);
      SelectedRow(zones, s, c);
    } else {
      PlainPatchWrites(zones, s, c);
    }
    MergeAsAsked(zones, s.schedules[c.id].fields, c.patch);
  }

  // ---------- The later occurrences of a series ----------

  /** The zone of a name, or UTC. */
  function Clock(zones: Zones, name: string): LocalTime.Zone {
    var known := if name == "" then "UTC" else name;
    if zones(known).Some? then zones(known).value
    else LocalTime.Zone(t => 0, d => d * LocalTime.DAY)
  }

  /** By how much the selected occurrence moves on the wall clock: each reading is
      taken in the timezone the occurrence has then. */
  function Moved(zones: Zones, selected: Fields, merged: Fields): int {
    LocalTime.WallNs(Clock(zones, merged.timezone), merged.startAt)
    - LocalTime.WallNs(Clock(zones, selected.timezone), selected.startAt)
  }

  /** How long it lasts on the wall clock afterwards. */
  function Lasts(zones: Zones, merged: Fields): int {
    if merged.endAt.None? then 0
    else
      LocalTime.WallNs(Clock(zones, merged.timezone), merged.endAt.value)
      - LocalTime.WallNs(Clock(zones, merged.timezone), merged.startAt)
  }

  function MovedDays(selected: Fields, merged: Fields): int {
    match (selected.startDate, merged.startDate)
    case (Some(a), Some(b)) => b - a
    case _ => 0
  }

  function LastsDays(merged: Fields): int {
    match (merged.startDate, merged.endDate)
    case (Some(a), Some(b)) => b - a
    case _ => 1
  }

  /** The patch names a start, an end, a timezone or the all-day mode. */
  predicate NamesTime(patch: Patch) {
    patch.startAt.Some? || patch.endAt.Some? || patch.timezone.Some? || patch.allDay.Some?
  }

  /** The first day of a later all-day occurrence, moved along. */
  function LaterFirstDay(
    z: LocalTime.Zone, selected: Fields, merged: Fields, before: Fields): int
  {
    MovedDays(selected, merged) +
    if before.startDate.Some? then before.startDate.value
    else LocalTime.Local(z, LocalTime.Sec(before.startAt)) / LocalTime.DAY
  }

  /** The reading a later timed occurrence is moved to. */
  function LaterWall(
    zones: Zones, z: LocalTime.Zone, selected: Fields, merged: Fields, before: Fields): int
  {
    LocalTime.WallNs(z, before.startAt) + Moved(zones, selected, merged)
  }

  /** A later occurrence after the patch: plain fields as asked for; an all-day one on
      the moved days; a timed one at the instants that answer the moved readings. */
  ghost predicate LaterAsAsked(
    zones: Zones, selected: Fields, merged: Fields, before: Fields, patch: Patch, after: Fields)
  {
    && PlainAsAsked(before, patch, after)
    && if after.allDay then
         && zones(after.timezone).Some?
         && var z := zones(after.timezone).value;
            var first := LaterFirstDay(z, selected, merged, before);
            && after.startDate == Some(first)
            && after.endDate == Some(first + LastsDays(merged))
            && after.startAt == LocalTime.Ns(z.midnight(first))
            && after.endAt == Some(LocalTime.Ns(z.midnight(first + LastsDays(merged))))
       else
         && after.startDate.None? && after.endDate.None?
         && if NamesTime(patch) then
              && zones(after.timezone).Some?
              && var z := zones(after.timezone).value;
                 var wall := LaterWall(zones, z, selected, merged, before);
                 TimesAnswer(z, wall, Lasts(zones, merged), patch, merged, after)
            else after.startAt == before.startAt && after.endAt == before.endAt
  }

  /** The start answers `wall`, and the end, if there is to be one, what lies `length`
      after it. */
  ghost predicate TimesAnswer(
    z: LocalTime.Zone, wall: int, length: int, patch: Patch, merged: Fields, after: Fields)
  {
    && LocalTime.ResolveWall(z, wall, patch.startFold) == Ok(LocalTime.At(after.startAt))
    && if patch.endAt == Some(None) || merged.endAt.None? then after.endAt.None?
       else
         && after.endAt.Some?
         && LocalTime.ResolveWall(z, wall + length, patch.endFold)
            == Ok(LocalTime.At(after.endAt.value))
  }

  /** The patch can be carried to a later occurrence. */
  ghost predicate LaterMergeable(
    zones: Zones, selected: Fields, merged: Fields, before: Fields, patch: Patch)
  {
    var name := AskedZone(before, patch);
    if AskedAllDay(before, patch) then
      && zones(name).Some? && Parses(patch.startDate) && Parses(patch.endDate)
      && var z := zones(name).value;
         var first := LaterFirstDay(z, selected, merged, before);
         && AskedFirstDay(z, before, patch) < AskedEndDay(z, before, patch)
         && LocalTime.Ns(z.midnight(first + LastsDays(merged)))
            - LocalTime.Ns(z.midnight(first)) >= 1_000_000
    else if NamesTime(patch) then
      && zones(name).Some?
      && var z := zones(name).value;
         var wall := LaterWall(zones, z, selected, merged, before);
         TimesResolve(z, wall, Lasts(zones, merged), patch, merged)
    else before.endAt.Some? ==> before.endAt.value - before.startAt >= 1_000_000
  }

  /** The readings have answers, a millisecond apart at least. */
  ghost predicate TimesResolve(
    z: LocalTime.Zone, wall: int, length: int, patch: Patch, merged: Fields)
  {
    var start := LocalTime.ResolveWall(z, wall, patch.startFold);
    && start.Ok?
    && (patch.endAt == Some(None) || merged.endAt.None? ||
        var end := LocalTime.ResolveWall(z, wall + length, patch.endFold);
        end.Ok? && end.value.t - start.value.t >= 1_000_000)
  }

  lemma ClocksAgree(zones: Zones, selected: Fields, merged: Fields)
    requires merged.timezone != ""
    ensures Moved(zones, selected, merged) == WallShift(zones, selected, merged)
    ensures Lasts(zones, merged) == WallLength(zones, merged)
    ensures MovedDays(selected, merged) == DayShift(selected, merged)
    ensures LastsDays(merged) == DaySpan(merged)
  {
    LocalTime.ReadingNs(Clock(zones, merged.timezone), merged.startAt);
    LocalTime.ReadingNs(Clock(zones, selected.timezone), selected.startAt);
    if merged.endAt.Some? {
      LocalTime.ReadingNs(Clock(zones, merged.timezone), merged.endAt.value);
    }
    assert ZoneOrUtc(zones, merged.timezone) == Clock(zones, merged.timezone);
    assert ZoneOrUtc(zones, Named(selected.timezone)) == Clock(zones, selected.timezone);
  }

  lemma TimesAsAsked(
    z: LocalTime.Zone, wall: int, length: int, patch: Patch, merged: Fields, fields: Fields)
    ensures match Validated(ShiftedTimes(z, wall, length, patch, merged, fields))
      case Ok(f) =>
        && TimesResolve(z, wall, length, patch, merged)
        && TimesAnswer(z, wall, length, patch, merged, f)
        && f == fields.(startAt := f.startAt, endAt := f.endAt)
      case Err(error) =>
        !TimesResolve(z, wall, length, patch, merged) && error == InvalidSchedule
  {
  }

  /** `r` is what is asked for, or the error where it cannot be had. */
  ghost predicate LaterOutcome(
    zones: Zones, selected: Fields, merged: Fields, before: Fields, patch: Patch,
    r: Result<Fields, Error>)
  {
    match r
    case Ok(after) =>
      && LaterMergeable(zones, selected, merged, before, patch)
      && LaterAsAsked(zones, selected, merged, before, patch, after)
    case Err(error) =>
      !LaterMergeable(zones, selected, merged, before, patch) && error == InvalidSchedule
  }

  lemma MergeTimedIsPlain(before: Fields, patch: Patch)
    ensures PlainAsAsked(before, patch, MergeTimed(before, patch))
    ensures var f := MergeTimed(before, patch);
      f.startDate.None? && f.endDate.None? && f.startAt == AskedStart(before, patch) &&
      f.endAt == AskedEnd(before, patch)
  {
  }

  // Timed occurrences.

  lemma StillIs(zones: Zones, selected: Fields, merged: Fields, before: Fields, patch: Patch)
    requires !AskedAllDay(before, patch) && !NamesTime(patch)
    ensures FollowingFields(zones, selected, merged, before, patch) ==
      Validated(Ok(MergeTimed(before, patch)))
  {
  }

  lemma LaterStill(
    zones: Zones, selected: Fields, merged: Fields, before: Fields, patch: Patch,
    r: Result<Fields, Error>)
    requires !AskedAllDay(before, patch) && !NamesTime(patch)
    requires r == Validated(Ok(MergeTimed(before, patch)))
    ensures LaterOutcome(zones, selected, merged, before, patch, r)
  {
    MergeTimedIsPlain(before, patch);
  }

  lemma MovedIs(
    zones: Zones, selected: Fields, merged: Fields, before: Fields, patch: Patch,
    z: LocalTime.Zone)
    requires !AskedAllDay(before, patch) && NamesTime(patch)
    requires zones(AskedZone(before, patch)) == Some(z)
    ensures FollowingFields(zones, selected, merged, before, patch) ==
      Validated(ShiftedTimes(
        z, LocalTime.LocalNs(z, before.startAt) + WallShift(zones, selected, merged),
        WallLength(zones, merged), patch, merged, MergeTimed(before, patch)))
  {
  }

  lemma LaterUnknown(
    zones: Zones, selected: Fields, merged: Fields, before: Fields, patch: Patch)
    requires !AskedAllDay(before, patch) && NamesTime(patch)
    requires zones(AskedZone(before, patch)).None?
    ensures FollowingFields(zones, selected, merged, before, patch) == Err(InvalidSchedule)
    ensures !LaterMergeable(zones, selected, merged, before, patch)
  {
  }

  /** The shift as the code computes it is the shift as asked for. */
  lemma ShiftsAgree(
    zones: Zones, selected: Fields, merged: Fields, before: Fields, z: LocalTime.Zone)
    requires merged.timezone != ""
    ensures LocalTime.LocalNs(z, before.startAt) + WallShift(zones, selected, merged) ==
      LaterWall(zones, z, selected, merged, before)
    ensures WallLength(zones, merged) == Lasts(zones, merged)
  {
    ClocksAgree(zones, selected, merged);
    LocalTime.ReadingNs(z, before.startAt);
  }

  lemma LaterMoved(
    zones: Zones, selected: Fields, merged: Fields, before: Fields, patch: Patch,
    z: LocalTime.Zone, wall: int, length: int, r: Result<Fields, Error>)
    requires !AskedAllDay(before, patch) && NamesTime(patch)
    requires zones(AskedZone(before, patch)) == Some(z)
    requires wall == LaterWall(zones, z, selected, merged, before)
    requires length == Lasts(zones, merged)
    requires r == Validated(
      ShiftedTimes(z, wall, length, patch, merged, MergeTimed(before, patch)))
    ensures LaterOutcome(zones, selected, merged, before, patch, r)
  {
    TimesAsAsked(z, wall, length, patch, merged, MergeTimed(before, patch));
    MergeTimedIsPlain(before, patch);
  }

  lemma LaterShifted(
    zones: Zones, selected: Fields, merged: Fields, before: Fields, patch: Patch,
    z: LocalTime.Zone, wall: int, length: int)
    requires merged.timezone != "" && !AskedAllDay(before, patch) && NamesTime(patch)
    requires zones(AskedZone(before, patch)) == Some(z)
    requires wall == LaterWall(zones, z, selected, merged, before)
    requires length == Lasts(zones, merged)
    ensures FollowingFields(zones, selected, merged, before, patch) ==
      Validated(ShiftedTimes(z, wall, length, patch, merged, MergeTimed(before, patch)))
  {
    ShiftsAgree(zones, selected, merged, before, z);
    MovedIs(zones, selected, merged, before, patch, z);
  }

  lemma LaterTimed(
    zones: Zones, selected: Fields, merged: Fields, before: Fields, patch: Patch,
    r: Result<Fields, Error>)
    requires merged.timezone != "" && !AskedAllDay(before, patch)
    requires r == FollowingFields(zones, selected, merged, before, patch)
    ensures LaterOutcome(zones, selected, merged, before, patch, r)
  {
    if !NamesTime(patch) {
      StillIs(zones, selected, merged, before, patch);
      LaterStill(zones, selected, merged, before, patch, r);
    } else if zones(AskedZone(before, patch)).None? {
      LaterUnknown(zones, selected, merged, before, patch);
    } else {
      var z := zones(AskedZone(before, patch)).value;
      var wall, length := LaterWall(zones, z, selected, merged, before), Lasts(zones, merged);
      LaterShifted(zones, selected, merged, before, patch, z, wall, length);
      LaterMoved(zones, selected, merged, before, patch, z, wall, length, r);
    }
  }

  // All-day occurrences.

  /** An all-day merge succeeds on known zones, parsable dates and days in order. */
  ghost predicate DaysMerge(zones: Zones, before: Fields, patch: Patch) {
    && zones(AskedZone(before, patch)).Some? && Parses(patch.startDate) && Parses(patch.endDate)
    && var z := zones(AskedZone(before, patch)).value;
       AskedFirstDay(z, before, patch) < AskedEndDay(z, before, patch)
  }

  lemma AllDayMergeIs(zones: Zones, before: Fields, patch: Patch)
    requires AskedAllDay(before, patch)
    ensures if DaysMerge(zones, before, patch) then
        var z := zones(AskedZone(before, patch)).value;
        Merge(zones, before, patch) == Ok(OnDates(
          MergeTimed(before, patch), z, AskedFirstDay(z, before, patch),
          AskedEndDay(z, before, patch)))
      else Merge(zones, before, patch) == Err(InvalidSchedule)
  {
    if zones(AskedZone(before, patch)).Some? {
      LocalTime.ReadingNs(zones(AskedZone(before, patch)).value, AskedStart(before, patch));
    }
  }

  lemma AllDayShiftIs(
    zones: Zones, selected: Fields, merged: Fields, before: Fields, patch: Patch,
    z: LocalTime.Zone, fields: Fields)
    requires fields.allDay && zones(fields.timezone) == Some(z) && merged.timezone != ""
    ensures var first := LaterFirstDay(z, selected, merged, before);
      Shifted(zones, selected, merged, before, patch, fields) ==
      Ok(OnDates(fields, z, first, first + LastsDays(merged)))
  {
    ClocksAgree(zones, selected, merged);
    LocalTime.ReadingNs(z, before.startAt);
  }

  lemma LaterDays(
    zones: Zones, selected: Fields, merged: Fields, before: Fields, patch: Patch,
    z: LocalTime.Zone, first: int, r: Result<Fields, Error>)
    requires AskedAllDay(before, patch) && DaysMerge(zones, before, patch)
    requires zones(AskedZone(before, patch)) == Some(z)
    requires first == LaterFirstDay(z, selected, merged, before)
    requires r == Validated(Ok(OnDates(
      MergeTimed(before, patch), z, first, first + LastsDays(merged))))
    ensures LaterOutcome(zones, selected, merged, before, patch, r)
  {
    MergeTimedIsPlain(before, patch);
  }

  lemma FollowingIs(
    zones: Zones, selected: Fields, merged: Fields, before: Fields, patch: Patch, m: Fields)
    requires Merge(zones, before, patch) == Ok(m)
    ensures FollowingFields(zones, selected, merged, before, patch) ==
      Validated(Shifted(zones, selected, merged, before, patch, m))
  {
  }

  lemma LaterAllDay(
    zones: Zones, selected: Fields, merged: Fields, before: Fields, patch: Patch,
    r: Result<Fields, Error>)
    requires merged.timezone != "" && AskedAllDay(before, patch)
    requires r == FollowingFields(zones, selected, merged, before, patch)
    ensures LaterOutcome(zones, selected, merged, before, patch, r)
  {
    AllDayMergeIs(zones, before, patch);
    if DaysMerge(zones, before, patch) {
      var z := zones(AskedZone(before, patch)).value;
      var m := Merge(zones, before, patch).value;
      FollowingIs(zones, selected, merged, before, patch, m);
      MergeTimedIsPlain(before, patch);
      AllDayShiftIs(zones, selected, merged, before, patch, z, m);
      var first := LaterFirstDay(z, selected, merged, before);
      LaterDays(zones, selected, merged, before, patch, z, first, r);
    }
  }

  /** Carrying the patch to a later occurrence succeeds exactly if it can be carried,
      with what is asked for, and fails with one error only. */
  lemma LaterIsAsAsked(
    zones: Zones, selected: Fields, merged: Fields, before: Fields, patch: Patch)
    requires merged.timezone != ""
    ensures LaterOutcome(
      zones, selected, merged, before, patch,
      FollowingFields(zones, selected, merged, before, patch))
  {
    var r := FollowingFields(zones, selected, merged, before, patch);
    if AskedAllDay(before, patch) {
      LaterAllDay(zones, selected, merged, before, patch, r);
    } else {
      LaterTimed(zones, selected, merged, before, patch, r);
    }
  }

  // ---------- The following scope as a whole ----------

  /** The row of a later occurrence after the patch. */
  ghost predicate LaterRowAsAsked(
    zones: Zones, selected: Fields, merged: Fields, before: Row, patch: Patch, after: Row)
  {
    && LaterAsAsked(zones, selected, merged, before.fields, patch, after.fields)
    && after.owner == before.owner && after.source == before.source
    && after.reminders == before.reminders && after.slot == before.slot
    && after.revision == before.revision + 1
  }

  /** Schedule `k` is a later occurrence to which the patch cannot be carried. */
  ghost predicate Obstacle(zones: Zones, s: State, c: Call, merged: Fields, k: nat)
    requires c.Update? && c.id in s.schedules && s.schedules[c.id].slot.Some?
  {
    k != c.id && InTail(s, c.id, k) &&
    !LaterMergeable(zones, s.schedules[c.id].fields, merged, s.schedules[k].fields, c.patch)
  }

  /** One target: the selected one as merged, a later one as asked for or in the way. */
  lemma OneTarget(zones: Zones, s: State, c: Call, merged: Fields, k: nat)
    requires c.Update? && c.id in s.schedules && s.schedules[c.id].slot.Some?
    requires merged.timezone != "" && InTail(s, c.id, k)
    ensures match FollowingChange(zones, s, c.id, merged, c.patch, k)
      case Ok(_) => !Obstacle(zones, s, c, merged, k)
      case Err(error) => Obstacle(zones, s, c, merged, k) && error == InvalidSchedule
  {
    LaterIsAsAsked(
      zones, s.schedules[c.id].fields, merged, s.schedules[k].fields, c.patch);
  }

  /** The loop over the targets fails exactly if one is in the way. */
  lemma {:induction false} TargetsOutcome(
    zones: Zones, s: State, c: Call, merged: Fields, targets: seq<nat>)
    requires c.Update? && c.id in s.schedules && s.schedules[c.id].slot.Some?
    requires merged.timezone != "" && forall i | 0 <= i < |targets| :: InTail(s, c.id, targets[i])
    ensures match FollowingChanges(zones, s, c.id, merged, c.patch, targets)
      case Ok(_) => forall i | 0 <= i < |targets| :: !Obstacle(zones, s, c, merged, targets[i])
      case Err(error) =>
        && error == InvalidSchedule
        && exists i :: 0 <= i < |targets| && Obstacle(zones, s, c, merged, targets[i])
  {
    if targets != [] {
      var n := |targets| - 1;
      var prior := targets[..n];
      assert forall i | 0 <= i < n :: prior[i] == targets[i];
      TargetsOutcome(zones, s, c, merged, prior);
      assert InTail(s, c.id, targets[n]);
      OneTarget(zones, s, c, merged, targets[n]);
    }
  }

  /** The plan of a following-scope PATCH: its error, or no obstacle. */
  lemma FollowingPlanOutcome(zones: Zones, s: State, c: Call, merged: Fields)
    requires c.Update? && Placed(s) && Recurring(s, c.user, c.id) && merged.timezone != ""
    requires Validated(Merge(zones, s.schedules[c.id].fields, c.patch)) == Ok(merged)
    requires c.patch.expectedRevision.Some? ==>
      c.patch.expectedRevision.value == s.schedules[c.id].revision
    ensures match PlanUpdateFollowing(zones, s, c.user, c.id, c.patch)
      case Ok(_) => forall k: nat :: !Obstacle(zones, s, c, merged, k)
      case Err(error) =>
        error == InvalidSchedule && exists k: nat :: Obstacle(zones, s, c, merged, k)
  {
    var targets := Later(s, s.schedules[c.id].slot.value);
    TailIsMine(s, c.user, c.id);
    TargetsAreTheTail(s, c.id);
    forall i | 0 <= i < |targets|
      ensures InTail(s, c.id, targets[i])
    {
      assert targets[i] in targets;
    }
    TargetsOutcome(zones, s, c, merged, targets);
    if FollowingChanges(zones, s, c.id, merged, c.patch, targets).Ok? {
      forall k: nat
        ensures !Obstacle(zones, s, c, merged, k)
      {
        if InTail(s, c.id, k) {
          var i :| 0 <= i < |targets| && targets[i] == k;
        }
      }
    }
  }

  /** Every row of the tail after a following-scope PATCH that took effect. */
  lemma TailAsAsked(zones: Zones, s: State, c: Call, merged: Fields, k: nat)
    requires FollowingCall(zones, s, c) && Merged(zones, s, c) == merged && merged.timezone != ""
    requires Recurring(s, c.user, c.id) && InTail(s, c.id, k) && k != c.id
    ensures k in After(zones, s, c).schedules
    ensures LaterRowAsAsked(
      zones, s.schedules[c.id].fields, merged, s.schedules[k], c.patch,
      After(zones, s, c).schedules[k])
  {
    FollowingChangesTheTail(zones, s, c);
    LaterIsAsAsked(
      zones, s.schedules[c.id].fields, merged, s.schedules[k].fields, c.patch);
  }

  /** What a following-scope PATCH leaves when it takes effect. */
  ghost predicate TailPatched(zones: Zones, s: State, c: Call, merged: Fields, t: State)
    requires c.Update? && c.id in s.schedules && s.schedules[c.id].slot.Some?
  {
    && t.schedules.Keys == s.schedules.Keys
    && RowAsAsked(zones, s.schedules[c.id], c.patch, t.schedules[c.id])
    && forall k | k in s.schedules && k != c.id ::
         if InTail(s, c.id, k) then
           LaterRowAsAsked(
             zones, s.schedules[c.id].fields, merged, s.schedules[k], c.patch, t.schedules[k])
         else t.schedules[k] == s.schedules[k]
  }

  lemma TailIsPatched(zones: Zones, s: State, c: Call, merged: Fields)
    requires FollowingCall(zones, s, c) && Merged(zones, s, c) == merged && merged.timezone != ""
    ensures c.id in s.schedules && s.schedules[c.id].slot.Some?
    ensures TailPatched(zones, s, c, merged, After(zones, s, c))
    ensures ReplyTo(zones, s, c) == Saved(c.id, After(zones, s, c).schedules[c.id])
  {
    UpdateWritesWhatIsAsked(zones, s, c);
    FollowingChangesTheTail(zones, s, c);
    forall k | k in s.schedules && k != c.id && InTail(s, c.id, k)
      ensures LaterRowAsAsked(
        zones, s.schedules[c.id].fields, merged, s.schedules[k], c.patch,
        After(zones, s, c).schedules[k])
    {
      TailAsAsked(zones, s, c, merged, k);
    }
  }

  /** A following-scope PATCH that is not a repetition and not by an erased user: which
      error it meets, and otherwise what it leaves; `merged` is what is asked for of
      the selected schedule. */
  lemma FollowingOutcome(zones: Zones, s: State, c: Call, merged: Fields)
    requires c.Update? && c.patch.scope == Following && c.user !in s.tombstones && Placed(s)
    requires c.key == "" || !Live(s, KeyOf(c))
    requires c.id in s.schedules && Mergeable(zones, s.schedules[c.id].fields, c.patch) ==>
      AsAsked(zones, s.schedules[c.id].fields, c.patch, merged)
    ensures var t, r := After(zones, s, c), ReplyTo(zones, s, c);
      if !(&& c.id in s.schedules && s.schedules[c.id].owner == c.user
           && s.schedules[c.id].slot.Some? && s.schedules[c.id].slot.value.series in s.series) then
        t == s && r == Refused(NotRecurring)
      else if c.patch.expectedRevision.Some? &&
              c.patch.expectedRevision.value != s.schedules[c.id].revision then
        t == s && r == Refused(RevisionConflict)
      else if !Mergeable(zones, s.schedules[c.id].fields, c.patch) then
        t == s && r == Refused(InvalidSchedule)
      else if exists k: nat :: Obstacle(zones, s, c, merged, k) then
        t == s && r == Refused(InvalidSchedule)
      else
        && TailPatched(zones, s, c, merged, t)
        && r == Saved(c.id, t.schedules[c.id])
  {
    if Recurring(s, c.user, c.id) {
      TailIsMine(s, c.user, c.id);
      MergeAsAsked(zones, s.schedules[c.id].fields, c.patch);
      if Mergeable(zones, s.schedules[c.id].fields, c.patch) {
        var f := Validated(Merge(zones, s.schedules[c.id].fields, c.patch)).value;
        AskedIsUnique(zones, s.schedules[c.id].fields, c.patch, f, merged);
        if c.patch.expectedRevision.Some? ==>
           c.patch.expectedRevision.value == s.schedules[c.id].revision
        {
          FollowingPlanOutcome(zones, s, c, merged);
          if TakesEffect(zones, s, c) {
            TailIsPatched(zones, s, c, merged);
          }
        }
      }
    }
  }
}
