/**
 What the other calls do to the tables, field by field, and when they do nothing:
 creations, reminders, deletions.
 */
module CallEffect {
  import opened Prelude
  import opened Calendar
  import opened Patching
  import opened Ledger
  import opened Changes
  import opened Structure
  import opened Runs
  import opened Claims
  import opened Tails

  /** Neither a repetition nor by an erased user. */
  ghost predicate Fresh(s: State, c: Call) {
    c.user !in s.tombstones && (c.key == "" || !Live(s, KeyOf(c)))
  }

  /** The caller owns the schedule. */
  ghost predicate Owns(s: State, user: nat, id: nat) {
    id in s.schedules && s.schedules[id].owner == user
  }

  // ---------- Reminder lists ----------

  ghost predicate GoodReminder(r: ReminderInput) {
    0 <= r.minutes <= 10080 && r.channel == "telegram"
  }

  /** At most five, each good, no two alike. */
  ghost predicate GoodReminders(rs: seq<ReminderInput>) {
    && |rs| <= 5
    && (forall i | 0 <= i < |rs| :: GoodReminder(rs[i]))
    && (forall i, j | 0 <= i < j < |rs| :: rs[i] != rs[j])
  }

  /** Entry `i` is the first that is wrong, for this reason. */
  ghost predicate FirstWrong(rs: seq<ReminderInput>, i: nat, error: Error)
    requires i < |rs|
  {
    && (forall j | 0 <= j < i :: GoodReminder(rs[j]) && rs[j] !in rs[..j])
    && if !GoodReminder(rs[i]) then error == InvalidReminder
       else rs[i] in rs[..i] && error == DuplicateReminder
  }

  lemma FirstWrongStays(t: seq<ReminderInput>, rs: seq<ReminderInput>, i: nat, error: Error)
    requires t <= rs && i < |t| && FirstWrong(t, i, error)
    ensures FirstWrong(rs, i, error)
  {
    assert forall j | 0 <= j < |t| :: t[j] == rs[j];
    assert rs[..i] == t[..i];
    forall j | 0 <= j < i
      ensures rs[j] !in rs[..j]
    {
      assert rs[..j] == t[..j];
    }
  }

  /** Every entry is good and unlike the earlier ones. */
  ghost predicate NoneWrong(rs: seq<ReminderInput>) {
    forall j | 0 <= j < |rs| :: GoodReminder(rs[j]) && rs[j] !in rs[..j]
  }

  lemma NoneWrongInit(t: seq<ReminderInput>, rs: seq<ReminderInput>)
    requires t <= rs && NoneWrong(t)
    ensures forall j | 0 <= j < |t| :: GoodReminder(rs[j]) && rs[j] !in rs[..j]
  {
    forall j | 0 <= j < |t|
      ensures GoodReminder(rs[j]) && rs[j] !in rs[..j]
    {
      assert rs[j] == t[j] && rs[..j] == t[..j];
    }
  }

  lemma {:induction false} ScanFindsFirst(rs: seq<ReminderInput>)
    ensures ReminderScan(rs).None? ==> NoneWrong(rs)
    ensures ReminderScan(rs).Some? ==>
      exists i: nat :: i < |rs| && FirstWrong(rs, i, ReminderScan(rs).value)
  {
    if rs != [] {
      var n := |rs| - 1;
      var t := rs[..n];
      ScanFindsFirst(t);
      if ReminderScan(t).Some? {
        var i: nat :| i < n && FirstWrong(t, i, ReminderScan(t).value);
        FirstWrongStays(t, rs, i, ReminderScan(t).value);
      } else {
        NoneWrongInit(t, rs);
        if ReminderScan(rs).Some? {
          assert FirstWrong(rs, n, ReminderScan(rs).value);
        } else {
          forall j | 0 <= j < |rs|
            ensures GoodReminder(rs[j]) && rs[j] !in rs[..j]
          {
            assert j < n || rs[..j] == t;
          }
        }
      }
    }
  }

  /** validateReminderSet: too many is reported first, then the first wrong entry. */
  lemma ReminderFaultMeans(rs: seq<ReminderInput>)
    ensures match ReminderFault(rs)
      case None => GoodReminders(rs)
      case Some(error) =>
        && !GoodReminders(rs)
        && if |rs| > 5 then error == ReminderLimit
           else exists i: nat :: i < |rs| && FirstWrong(rs, i, error)
  {
    if |rs| <= 5 {
      ScanFindsFirst(rs);
      ScanIsExact(rs);
    }
  }

  /** `list` holds exactly the reminders asked for, by minutes, under new numbers. */
  ghost predicate ListsReminders(list: seq<Reminder>, asked: seq<ReminderInput>, base: nat) {
    && |list| == |asked|
    && (forall i, j | 0 <= i < j < |list| :: list[i].minutes < list[j].minutes)
    && (forall i | 0 <= i < |list| :: ReminderInput(list[i].minutes, list[i].channel) in asked)
    && (forall r | r in asked :: Listed(list, r))
    && NumberedFrom(list, base, base + |asked|)
  }

  /** The numbers are different ones from that range. */
  ghost predicate NumberedFrom(list: seq<Reminder>, base: nat, bound: nat) {
    && (forall i | 0 <= i < |list| :: base <= list[i].id < bound)
    && (forall i, j | 0 <= i < j < |list| :: list[i].id != list[j].id)
  }

  /** Inserting puts the element somewhere and moves nothing else. */
  lemma {:induction false} InsertedAt<T>(s: seq<T>, x: T, key: T -> int) returns (k: nat)
    ensures k <= |s| && Insert(s, x, key) == s[..k] + [x] + s[k..]
  {
    if s == [] || key(x) <= key(s[0]) {
      k := 0;
    } else {
      var j := InsertedAt(s[1..], x, key);
      k := j + 1;
      assert s[..k] == [s[0]] + s[1..][..j] && s[k..] == s[1..][j..];
    }
  }

  lemma NumberedInsert(list: seq<Reminder>, x: Reminder, base: nat, bound: nat, k: nat)
    requires NumberedFrom(list, base, x.id) && base <= x.id < bound && k <= |list|
    ensures NumberedFrom(list[..k] + [x] + list[k..], base, bound)
  {
    var all := list[..k] + [x] + list[k..];
    assert forall i | 0 <= i < |all| ::
      all[i] == if i < k then list[i] else if i == k then x else list[i - 1];
  }

  lemma {:induction false} NewRemindersNumbered(rs: seq<ReminderInput>, base: nat)
    ensures NumberedFrom(NewReminders(rs, base), base, base + |rs|)
  {
    if rs != [] {
      var n := |rs| - 1;
      NewRemindersNumbered(rs[..n], base);
      var x := Reminder(base + n, rs[n].minutes, rs[n].channel);
      var list := NewReminders(rs[..n], base);
      var k := InsertedAt(list, x, Minutes);
      NumberedInsert(list, x, base, base + |rs|, k);
    }
  }

  /** The list has a reminder like `r`. */
  ghost predicate Listed(list: seq<Reminder>, r: ReminderInput) {
    exists i :: 0 <= i < |list| && list[i].minutes == r.minutes && list[i].channel == r.channel
  }

  lemma ListedBy(list: seq<Reminder>, x: Reminder, r: ReminderInput)
    requires x in list && x.minutes == r.minutes && x.channel == r.channel
    ensures Listed(list, r)
  {
    var i :| 0 <= i < |list| && list[i] == x;
    assert list[i].minutes == r.minutes;
  }

  lemma {:induction false} NewRemindersHold(rs: seq<ReminderInput>, base: nat, r: ReminderInput)
    requires r in rs
    ensures Listed(NewReminders(rs, base), r)
  {
    var n := |rs| - 1;
    var x := Reminder(base + n, rs[n].minutes, rs[n].channel);
    var list := NewReminders(rs[..n], base);
    InsertElements(list, x, Minutes);
    if r == rs[n] {
      ListedBy(NewReminders(rs, base), x, r);
    } else {
      assert rs == rs[..n] + [rs[n]];
      NewRemindersHold(rs[..n], base, r);
      var j :| 0 <= j < |list| && list[j].minutes == r.minutes && list[j].channel == r.channel;
      ListedBy(NewReminders(rs, base), list[j], r);
    }
  }

  lemma NewRemindersList(rs: seq<ReminderInput>, base: nat)
    requires GoodReminders(rs)
    ensures ListsReminders(NewReminders(rs, base), rs, base)
  {
    var list := NewReminders(rs, base);
    ScanIsExact(rs);
    NewRemindersAscend(rs, base);
    NewRemindersNumbered(rs, base);
    forall i, j | 0 <= i < j < |list|
      ensures list[i].minutes < list[j].minutes
    {
      assert Minutes(list[i]) < Minutes(list[j]);
    }
    forall i | 0 <= i < |list|
      ensures ReminderInput(list[i].minutes, list[i].channel) in rs
    {
      NewRemindersFrom(rs, base, list[i]);
    }
    forall r | r in rs
      ensures Listed(list, r)
    {
      NewRemindersHold(rs, base, r);
    }
  }

  // ---------- One creation ----------

  /** A date is stored if it parses. */
  ghost predicate DateStored(asked: Option<DateText>, stored: Option<int>) {
    stored == match asked case Some(IsoDate(day)) => Some(day) case _ => None
  }

  /** The new row holds what was asked for, with the defaults for what was left empty. */
  ghost predicate CreatedAs(i: CreateInput, user: nat, base: nat, row: Row) {
    var f := row.fields;
    && row.owner == user && row.revision == 1 && row.slot.None?
    && f.title == i.title && f.description == i.description && f.location == i.location
    && f.startAt == i.startAt && f.endAt == i.endAt && f.allDay == i.allDay
    && f.timezone == (if i.timezone == "" then "UTC" else i.timezone)
    && DateStored(i.startDate, f.startDate) && DateStored(i.endDate, f.endDate)
    && f.status == (if i.status == "" then "confirmed" else i.status)
    && row.source == (if i.source == "" then "manual" else i.source)
    && ListsReminders(row.reminders, i.reminders, base)
  }

  lemma NewRowIs(i: CreateInput, user: nat, base: nat)
    requires GoodReminders(i.reminders)
    ensures CreatedAs(i, user, base, NewRow(user, Defaulted(i), base))
  {
    NewRemindersList(i.reminders, base);
  }

  /** What a creation leaves: one row more. */
  ghost predicate RowAdded(s: State, c: Call, t: State)
    requires c.Create?
  {
    var id := s.nextSchedule;
    && id !in s.schedules && t.schedules.Keys == s.schedules.Keys + {id}
    && CreatedAs(c.input, c.user, s.nextReminder, t.schedules[id])
    && (forall k | k in s.schedules :: t.schedules[k] == s.schedules[k])
    && t.series == s.series
  }

  lemma CreateCommits(s: State, c: Call, e: Effect)
    requires c.Create? && Placed(s) && GoodReminders(c.input.reminders)
    requires e == PlanCreate(s, c.user, c.input)
    ensures RowAdded(s, c, Commit(s, e))
    ensures e.reply == Saved(s.nextSchedule, Commit(s, e).schedules[s.nextSchedule])
  {
    NewRowIs(c.input, c.user, s.nextReminder);
    AddOneCommits(
      s, NewRow(c.user, Defaulted(c.input), s.nextReminder), |c.input.reminders|);
  }

  /** A single creation: refused for its reminders alone, else exactly one row more. */
  lemma CreateOutcome(zones: Zones, s: State, c: Call)
    requires c.Create? && Fresh(s, c) && Placed(s)
    ensures var t, r, rs := After(zones, s, c), ReplyTo(zones, s, c), c.input.reminders;
      if !GoodReminders(rs) then
        t == s && ReminderFault(rs).Some? && r == Refused(ReminderFault(rs).value)
      else RowAdded(s, c, t) && r == Saved(s.nextSchedule, t.schedules[s.nextSchedule])
  {
    ReminderFaultMeans(c.input.reminders);
    if GoodReminders(c.input.reminders) {
      CreateCommits(s, c, PlanCreate(s, c.user, c.input));
    }
  }

  lemma AddOneCommits(s: State, row: Row, used: nat)
    ensures var t := Commit(
        s, Effect([Add(row)], used, None, KeepSeries, Saved(s.nextSchedule, row)));
      t.schedules == s.schedules[s.nextSchedule := row] && t.series == s.series
  {
    var cs := [Add(row)];
    assert cs[..0] == [];
    assert ApplyAll(s, cs[..0]) == s;
    assert PruneSeries(Apply(s, cs[0]), KeepSeries).series == s.series;
  }

  // ---------- A new series ----------

  /** Occurrence `j`: the request's fields, the occurrence's own times and its place. */
  ghost predicate OccurrenceAs(
    i: CreateInput, o: OccurrenceInput, user: nat, series: nat, j: nat, base: nat, row: Row)
  {
    var f := row.fields;
    && row.owner == user && row.revision == 1 && row.slot == Some(Slot(series, j))
    && f.title == i.title && f.description == i.description && f.location == i.location
    && f.startAt == o.startAt && f.endAt == o.endAt && f.allDay == o.allDay
    && f.timezone == i.timezone
    && DateStored(o.startDate, f.startDate) && DateStored(o.endDate, f.endDate)
    && f.status == (if i.status == "" then "confirmed" else i.status)
    && row.source == (if i.source == "" then "manual" else i.source)
    && ListsReminders(row.reminders, i.reminders, base)
  }

  lemma {:induction false} UsedIs(n: nat, each: nat)
    ensures Used(n, each) == n * each
  {
    if n > 0 {
      UsedIs(n - 1, each);
    }
  }

  lemma OccurrenceRowIs(s: State, user: nat, i: CreateInput, o: OccurrenceInput, j: nat)
    requires GoodReminders(i.reminders)
    ensures OccurrenceAs(
      i, o, user, s.nextSeries, j, s.nextReminder + j * |i.reminders|,
      OccurrenceRow(s, user, i, o, j))
  {
    UsedIs(j, |i.reminders|);
    NewRemindersList(i.reminders, s.nextReminder + j * |i.reminders|);
  }

  /** Adding rows gives them the next numbers and changes no other row. */
  lemma {:induction false} AddsGive(s: State, cs: seq<Change>)
    requires forall i | 0 <= i < |cs| :: cs[i].Add?
    requires forall id | id in s.schedules :: id < s.nextSchedule
    ensures var t := ApplyAll(s, cs);
      && t.nextSchedule == s.nextSchedule + |cs|
      && (forall id: nat :: id in t.schedules <==>
            id in s.schedules || s.nextSchedule <= id < s.nextSchedule + |cs|)
      && (forall id | id in s.schedules :: t.schedules[id] == s.schedules[id])
      && (forall id: nat | s.nextSchedule <= id < s.nextSchedule + |cs| ::
            id in t.schedules && t.schedules[id] == cs[id - s.nextSchedule].row)
  {
    if cs != [] {
      var n := |cs| - 1;
      AddsGive(s, cs[..n]);
      var u, t := ApplyAll(s, cs[..n]), ApplyAll(s, cs);
      assert t.schedules == u.schedules[u.nextSchedule := cs[n].row];
    }
  }

  lemma {:induction false} SeriesRows(
    s: State, user: nat, i: CreateInput, os: seq<OccurrenceInput>, rows: seq<Row>)
    requires rows == OccurrenceRows(s, user, i, os)
    ensures |SeriesChanges(s, user, i, os)| == |rows|
    ensures forall j | 0 <= j < |rows| :: SeriesChanges(s, user, i, os)[j] == Add(rows[j])
  {
    if os != [] {
      var n := |os| - 1;
      SeriesRows(s, user, i, os[..n], rows[..n]);
    }
  }

  function OccurrenceRows(s: State, user: nat, i: CreateInput, os: seq<OccurrenceInput>)
    : (rows: seq<Row>)
    ensures |rows| == |os|
  {
    seq(|os|, j requires 0 <= j < |os| => OccurrenceRow(s, user, i, os[j], j))
  }

  /** What a series creation leaves: one row per occurrence, and the series. */
  ghost predicate SeriesAdded(s: State, c: Call, t: State)
    requires c.CreateSeries? && c.input.recurrence.Some?
  {
    var i, n := c.input, |c.occurrences|;
    && (forall id: nat :: id in t.schedules <==>
          id in s.schedules || s.nextSchedule <= id < s.nextSchedule + n)
    && (forall id | id in s.schedules && id in t.schedules :: t.schedules[id] == s.schedules[id])
    && (forall id: nat | s.nextSchedule <= id < s.nextSchedule + n && id in t.schedules ::
          var j := id - s.nextSchedule;
          OccurrenceAs(
            i, c.occurrences[j], c.user, s.nextSeries, j, s.nextReminder + j * |i.reminders|,
            t.schedules[id]))
    && t.series == s.series[s.nextSeries := Series(c.user, i.recurrence.value)]
  }

  /** The rows are added under the next numbers, and nothing else is changed. */
  ghost predicate RowsAdded(s: State, rows: seq<Row>, t: map<nat, Row>) {
    && (forall id: nat :: id in t <==>
          id in s.schedules || s.nextSchedule <= id < s.nextSchedule + |rows|)
    && (forall id | id in s.schedules && id in t :: t[id] == s.schedules[id])
    && (forall id: nat | s.nextSchedule <= id < s.nextSchedule + |rows| && id in t ::
          t[id] == rows[id - s.nextSchedule])
  }

  lemma {:induction false} AddsAreRows(s: State, s0: State, cs: seq<Change>, rows: seq<Row>)
    requires forall id | id in s.schedules :: id < s.nextSchedule
    requires s0.schedules == s.schedules && s0.nextSchedule == s.nextSchedule
    requires |cs| == |rows| && forall j | 0 <= j < |cs| :: cs[j] == Add(rows[j])
    ensures RowsAdded(s, rows, ApplyAll(s0, cs).schedules)
  {
    AddsGive(s0, cs);
    var t := ApplyAll(s0, cs).schedules;
    forall id: nat | s.nextSchedule <= id < s.nextSchedule + |rows|
      ensures id in t && t[id] == rows[id - s.nextSchedule]
    {
      assert cs[id - s.nextSchedule] == Add(rows[id - s.nextSchedule]);
    }
  }

  lemma SeriesTables(s: State, c: Call, e: Effect, t: State, rows: seq<Row>)
    requires c.CreateSeries? && Placed(s)
    requires c.input.recurrence.Some? && |c.occurrences| > 0
    requires e == PlanCreateSeries(s, c.user, c.input, c.occurrences) && t == Commit(s, e)
    requires rows == OccurrenceRows(s, c.user, c.input, c.occurrences)
    ensures t.series == s.series[s.nextSeries := Series(c.user, c.input.recurrence.value)]
    ensures RowsAdded(s, rows, t.schedules) && e.reply == Saved(s.nextSchedule, rows[0])
  {
    KeptCommit(s, e);
    SeriesRows(s, c.user, c.input, c.occurrences, rows);
    AddsAreRows(s, AddSeries(s, e.newSeries), e.changes, rows);
  }

  /** Without pruning, an effect's changes are all it does to schedules and series. */
  lemma KeptCommit(s: State, e: Effect)
    requires e.prune == KeepSeries
    ensures Commit(s, e).schedules == ApplyAll(AddSeries(s, e.newSeries), e.changes).schedules
    ensures Commit(s, e).series == AddSeries(s, e.newSeries).series
  {
    ApplyAllFrame(AddSeries(s, e.newSeries), e.changes);
    assert Commit(s, e).series == AddSeries(s, e.newSeries).series;
  }

  /** Every row of the series is as asked for. */
  ghost predicate RowsAsAsked(s: State, c: Call, rows: seq<Row>)
    requires c.CreateSeries? && |rows| == |c.occurrences|
  {
    forall j | 0 <= j < |rows| ::
      OccurrenceAs(
        c.input, c.occurrences[j], c.user, s.nextSeries, j,
        s.nextReminder + j * |c.input.reminders|, rows[j])
  }

  lemma SeriesRowsAsAsked(s: State, c: Call, rows: seq<Row>)
    requires c.CreateSeries? && GoodReminders(c.input.reminders)
    requires rows == OccurrenceRows(s, c.user, c.input, c.occurrences)
    ensures RowsAsAsked(s, c, rows)
  {
    forall j | 0 <= j < |rows|
      ensures OccurrenceAs(
        c.input, c.occurrences[j], c.user, s.nextSeries, j,
        s.nextReminder + j * |c.input.reminders|, rows[j])
    {
      OccurrenceRowIs(s, c.user, c.input, c.occurrences[j], j);
    }
  }

  lemma SeriesIsAdded(s: State, c: Call, t: State, rows: seq<Row>)
    requires c.CreateSeries? && c.input.recurrence.Some? && |rows| == |c.occurrences|
    requires RowsAsAsked(s, c, rows) && RowsAdded(s, rows, t.schedules)
    requires t.series == s.series[s.nextSeries := Series(c.user, c.input.recurrence.value)]
    ensures SeriesAdded(s, c, t)
  {
  }

  lemma SeriesCommits(s: State, c: Call, e: Effect, t: State)
    requires c.CreateSeries? && Placed(s) && GoodReminders(c.input.reminders)
    requires c.input.recurrence.Some? && |c.occurrences| > 0
    requires e == PlanCreateSeries(s, c.user, c.input, c.occurrences) && t == Commit(s, e)
    ensures SeriesAdded(s, c, t) && s.nextSchedule in t.schedules
    ensures e.reply == Saved(s.nextSchedule, t.schedules[s.nextSchedule])
  {
    var rows := OccurrenceRows(s, c.user, c.input, c.occurrences);
    SeriesTables(s, c, e, t, rows);
    SeriesRowsAsAsked(s, c, rows);
    SeriesIsAdded(s, c, t, rows);
  }

  /** A series creation: refused without a rule or with none or too many occurrences,
      or for its reminders; else exactly its rows more. */
  lemma CreateSeriesOutcome(zones: Zones, s: State, c: Call)
    requires c.CreateSeries? && Fresh(s, c) && Placed(s)
    ensures var t, r := After(zones, s, c), ReplyTo(zones, s, c);
      if c.input.recurrence.None? || !(1 <= |c.occurrences| <= 100) then
        t == s && r == Refused(InvalidSchedule)
      else if !GoodReminders(c.input.reminders) then
        t == s && ReminderFault(c.input.reminders).Some? &&
        r == Refused(ReminderFault(c.input.reminders).value)
      else
        && SeriesAdded(s, c, t)
        && s.nextSchedule in t.schedules && r == Saved(s.nextSchedule, t.schedules[s.nextSchedule])
  {
    ReminderFaultMeans(c.input.reminders);
    if Fault(c).None? {
      var e := PlanCreateSeries(s, c.user, c.input, c.occurrences);
      SeriesCommits(s, c, e, Commit(s, e));
    }
  }

  // ---------- Reminders ----------

  /** The row as before, but for its reminders and one revision more. */
  ghost predicate OnlyReminders(before: Row, after: Row) {
    && after.owner == before.owner && after.fields == before.fields
    && after.source == before.source && after.slot == before.slot
    && after.revision == before.revision + 1
  }

  /** Only the row of `id` is changed. */
  ghost predicate OnlyRow(s: State, t: State, id: nat) {
    && t.schedules.Keys == s.schedules.Keys && t.series == s.series
    && forall k | k in s.schedules && k != id :: t.schedules[k] == s.schedules[k]
  }

  /** `after` is `before` with `x` put in somewhere. */
  ghost predicate Gains(before: seq<Reminder>, x: Reminder, after: seq<Reminder>) {
    exists k :: 0 <= k <= |before| && after == before[..k] + [x] + before[k..]
  }

  lemma PutOneCommits(s: State, id: nat, row: Row, used: nat, reply: Reply)
    requires id in s.schedules
    ensures var t := Commit(s, Effect([Put(id, row)], used, None, KeepSeries, reply));
      OnlyRow(s, t, id) && t.schedules[id] == row
  {
    var cs := [Put(id, row)];
    assert cs[..0] == [];
    assert ApplyAll(s, cs[..0]) == s;
    assert PruneSeries(Apply(s, cs[0]), KeepSeries).series == s.series;
  }

  ghost predicate HasLike(list: seq<Reminder>, r: ReminderInput) {
    exists i | 0 <= i < |list| :: list[i].minutes == r.minutes && list[i].channel == r.channel
  }

  /** Adding a reminder: which error it meets; otherwise the list gains exactly it,
      under a new number, in its place by minutes, and nothing else changes. */
  lemma AddReminderOutcome(zones: Zones, s: State, c: Call)
    requires c.AddReminder? && Fresh(s, c) && Placed(s)
    ensures var t, r := After(zones, s, c), ReplyTo(zones, s, c);
      if !GoodReminder(c.reminder) then t == s && r == Refused(InvalidReminder)
      else if !Owns(s, c.user, c.id) then t == s && r == Refused(NotFound)
      else if |s.schedules[c.id].reminders| >= 5 then t == s && r == Refused(ReminderLimit)
      else if HasLike(s.schedules[c.id].reminders, c.reminder) then
        t == s && r == Refused(DuplicateReminder)
      else
        var x := Reminder(s.nextReminder, c.reminder.minutes, c.reminder.channel);
        && r == ReminderAdded(x) && OnlyRow(s, t, c.id)
        && OnlyReminders(s.schedules[c.id], t.schedules[c.id])
        && Gains(s.schedules[c.id].reminders, x, t.schedules[c.id].reminders)
        && (forall i, j | 0 <= i < j < |t.schedules[c.id].reminders| ::
              t.schedules[c.id].reminders[i].minutes < t.schedules[c.id].reminders[j].minutes)
  {
    OneReminderFault(c.reminder);
    if GoodReminder(c.reminder) && PlanAddReminder(s, c.user, c.id, c.reminder).Ok? {
      AddReminderWrites(s, c.user, c.id, c.reminder);
    }
  }

  lemma OneReminderFault(r: ReminderInput)
    ensures ReminderFault([r]) == if GoodReminder(r) then None else Some(InvalidReminder)
  {
    assert [r][..0] == [];
    assert ReminderScan([r][..0]) == None;
    assert [r][0] == r;
  }

  lemma AddReminderWrites(s: State, user: nat, id: nat, r: ReminderInput)
    requires Owns(s, user, id) && Placed(s) && GoodReminder(r)
    requires PlanAddReminder(s, user, id, r).Ok?
    ensures var e := PlanAddReminder(s, user, id, r).value;
      var t, x := Commit(s, e), Reminder(s.nextReminder, r.minutes, r.channel);
      && e.reply == ReminderAdded(x) && OnlyRow(s, t, id)
      && OnlyReminders(s.schedules[id], t.schedules[id])
      && Gains(s.schedules[id].reminders, x, t.schedules[id].reminders)
      && forall i, j | 0 <= i < j < |t.schedules[id].reminders| ::
           t.schedules[id].reminders[i].minutes < t.schedules[id].reminders[j].minutes
  {
    var row, x := s.schedules[id], Reminder(s.nextReminder, r.minutes, r.channel);
    var list := Insert(row.reminders, x, Minutes);
    PutOneCommits(
      s, id, row.(reminders := list, revision := row.revision + 1), 1, ReminderAdded(x));
    OneReminderFault(r);
    AddedReminderOk(row.reminders, r, s.nextReminder);
    forall i, j | 0 <= i < j < |list|
      ensures list[i].minutes < list[j].minutes
    {
      assert Minutes(list[i]) < Minutes(list[j]);
    }
    var k := InsertedAt(row.reminders, x, Minutes);
  }

  /** `after` is `before` without the reminders numbered `id`, in the same order. */
  ghost predicate Loses(before: seq<Reminder>, id: nat, after: seq<Reminder>) {
    if before == [] then after == []
    else if before[0].id == id then Loses(before[1..], id, after)
    else after != [] && after[0] == before[0] && Loses(before[1..], id, after[1..])
  }

  lemma {:induction false} WithoutLoses(rs: seq<Reminder>, id: nat)
    ensures Loses(rs, id, WithoutReminder(rs, id))
  {
    if rs != [] {
      var rest := WithoutReminder(rs[1..], id);
      WithoutLoses(rs[1..], id);
      assert [] + rest == rest && ([rs[0]] + rest)[1..] == rest;
    }
  }

  /** A reminder with that number is in the list. */
  ghost predicate Holds(list: seq<Reminder>, id: nat) {
    exists i | 0 <= i < |list| :: list[i].id == id
  }

  lemma HoldsStep(list: seq<Reminder>, id: nat)
    requires list != []
    ensures Holds(list, id) <==> list[0].id == id || Holds(list[1..], id)
  {
    var rest := list[1..];
    if i :| 0 <= i < |list| && list[i].id == id {
      assert i > 0 ==> rest[i - 1].id == id;
    }
    if i :| 0 <= i < |rest| && rest[i].id == id {
      assert list[i + 1].id == id;
    }
  }

  /** If the numbers differ, exactly one is lost. */
  lemma {:induction false} LosesOne(before: seq<Reminder>, id: nat, after: seq<Reminder>)
    requires Loses(before, id, after)
    requires forall i, j | 0 <= i < j < |before| :: before[i].id != before[j].id
    ensures |after| == |before| - (if Holds(before, id) then 1 else 0)
    ensures forall r :: r in after <==> r in before && r.id != id
  {
    if before != [] {
      var rest := before[1..];
      assert before == [before[0]] + rest;
      HoldsStep(before, id);
      if before[0].id == id {
        assert forall i | 0 <= i < |rest| :: rest[i] == before[i + 1] && rest[i].id != id;
        assert !Holds(rest, id);
        LosesOne(rest, id, after);
      } else {
        LosesOne(rest, id, after[1..]);
        assert after == [after[0]] + after[1..];
      }
    }
  }

  lemma DeleteReminderWrites(s: State, user: nat, id: nat, reminderId: nat, e: Effect)
    requires PlanDeleteReminder(s, user, id, reminderId) == Ok(e)
    ensures Owns(s, user, id) && Holds(s.schedules[id].reminders, reminderId) && e.reply == Removed
    ensures var t := Commit(s, e);
      && OnlyRow(s, t, id) && OnlyReminders(s.schedules[id], t.schedules[id])
      && Loses(s.schedules[id].reminders, reminderId, t.schedules[id].reminders)
  {
    var row := s.schedules[id];
    var kept := WithoutReminder(row.reminders, reminderId);
    WithoutLoses(row.reminders, reminderId);
    PutOneCommits(s, id, row.(reminders := kept, revision := row.revision + 1), 0, Removed);
  }

  /** Deleting a reminder: not found unless the schedule is the caller's and has it;
      otherwise the list loses exactly it. */
  lemma DeleteReminderOutcome(zones: Zones, s: State, c: Call)
    requires c.DeleteReminder? && Fresh(s, c)
    ensures var t, r := After(zones, s, c), ReplyTo(zones, s, c);
      if !Owns(s, c.user, c.id) || !Holds(s.schedules[c.id].reminders, c.reminderId) then
        t == s && r == Refused(NotFound)
      else
        && r == Removed && OnlyRow(s, t, c.id)
        && OnlyReminders(s.schedules[c.id], t.schedules[c.id])
        && Loses(s.schedules[c.id].reminders, c.reminderId, t.schedules[c.id].reminders)
  {
    var plan := PlanDeleteReminder(s, c.user, c.id, c.reminderId);
    if plan.Ok? {
      DeleteReminderWrites(s, c.user, c.id, c.reminderId, plan.value);
    }
  }

  // ---------- Deletions ----------

  lemma DropOneCommits(s: State, id: nat, prune: Prune, reply: Reply)
    requires id in s.schedules
    ensures Commit(s, Effect([Drop(id)], 0, None, prune, reply)).schedules == s.schedules - {id}
  {
    var cs := [Drop(id)];
    assert cs[..0] == [];
    assert ApplyAll(s, cs[..0]) == s;
  }

  /** Deleting a schedule removes exactly it, if it is the caller's. */
  lemma DeleteOutcome(zones: Zones, s: State, c: Call)
    requires c.Delete? && Fresh(s, c)
    ensures var t, r := After(zones, s, c), ReplyTo(zones, s, c);
      if !Owns(s, c.user, c.id) then t == s && r == Refused(NotFound)
      else t.schedules == s.schedules - {c.id} && r == Removed
  {
    if Owns(s, c.user, c.id) {
      DropOneCommits(s, c.id, PruneOwner(c.user), Removed);
    }
  }

  /** Deleting from one occurrence on: which error it meets; otherwise exactly the tail
      of the series goes. */
  lemma DeleteFollowingOutcome(zones: Zones, s: State, c: Call)
    requires c.DeleteFollowing? && Fresh(s, c) && Placed(s)
    ensures var t, r := After(zones, s, c), ReplyTo(zones, s, c);
      if !(&& Owns(s, c.user, c.id) && s.schedules[c.id].slot.Some?
           && s.schedules[c.id].slot.value.series in s.series) then
        t == s && r == Refused(NotRecurring)
      else if s.schedules[c.id].revision != c.expected then
        t == s && r == Refused(RevisionConflict)
      else
        && r == Removed
        && (forall k: nat :: k in t.schedules <==> k in s.schedules && !InTail(s, c.id, k))
        && (forall k | k in t.schedules :: t.schedules[k] == s.schedules[k])
  {
    if Recurring(s, c.user, c.id) {
      TailIsMine(s, c.user, c.id);
      if TakesEffect(zones, s, c) {
        DeleteFollowingRemovesTheTail(zones, s, c);
      }
    }
  }

  lemma TailIsMine(s: State, user: nat, id: nat)
    requires Placed(s) && Recurring(s, user, id)
    ensures AllOwned(s, user, Later(s, s.schedules[id].slot.value))
    ensures Later(s, s.schedules[id].slot.value) != []
  {
    var targets := Later(s, s.schedules[id].slot.value);
    TargetsAreTheTail(s, id);
    assert InTail(s, id, id);
    forall i | 0 <= i < |targets|
      ensures Owned(s, user, targets[i])
    {
      assert InTail(s, id, targets[i]);
      assert Seated(s, s.schedules[targets[i]]) && Seated(s, s.schedules[id]);
    }
  }

  // ---------- Events ----------

  lemma {:induction false} ChangesStamped(s: State, cs: seq<Change>)
    ensures var t := ApplyAll(s, cs);
      && s.outbox <= t.outbox && t.now == s.now
      && forall i | |s.outbox| <= i < |t.outbox| :: t.outbox[i].event.occurredAt == s.now
  {
    if cs != [] {
      ChangesStamped(s, cs[..|cs| - 1]);
    }
  }

  /** Whatever a call announces carries the time of its transaction. */
  lemma EventsAreStamped(zones: Zones, s: State, c: Call)
    ensures var t := After(zones, s, c);
      && s.outbox <= t.outbox
      && forall i | |s.outbox| <= i < |t.outbox| :: t.outbox[i].event.occurredAt == s.now
  {
    var v := Judge(zones, s, c);
    if v.Applied? {
      ChangesStamped(AddSeries(s, v.effect.newSeries), v.effect.changes);
    }
  }
}
