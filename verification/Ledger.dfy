/**
 The schedule store as a state machine.  Each service call is one transaction:
 it is refused, answered from an earlier claim, or commits an effect, and an
 effect is a list of row changes of which each writes its own outbox event.

 Child rows that the schema keys by their schedule and deletes with it
 (reminders, series slots) are held inside the schedule's row.
 */
module Ledger {
  import opened Prelude
  import opened Calendar
  import opened Patching

  const MAX_REMINDERS := 5
  const MAX_REMINDER_MINUTES := 10080
  const MAX_OCCURRENCES := 100
  const CLAIM_MILLIS := 86_400_000

  // ---------- Tables ----------

  datatype ReminderInput = ReminderInput(minutes: int, channel: string)

  datatype Reminder = Reminder(id: nat, minutes: int, channel: string)

  /** The place of a schedule in its recurrence series. */
  datatype Slot = Slot(series: nat, index: nat)

  /** A schedule; its reminders are kept in the order they are listed. */
  datatype Row = Row(
    owner: nat, fields: Fields, source: string, revision: nat,
    reminders: seq<Reminder>, slot: Option<Slot>)

  datatype Series = Series(owner: nat, rule: nat)

  /** The part of a schedule that is published. */
  datatype Snapshot = Snapshot(
    title: string, startAt: int, endAt: Option<int>, allDay: bool, timezone: string,
    startDate: Option<int>, endDate: Option<int>, source: string, status: string,
    reminders: seq<ReminderInput>)

  datatype Body = Created(snapshot: Snapshot) | Updated(snapshot: Snapshot) | Deleted

  datatype Event = Event(schedule: nat, owner: nat, revision: nat, occurredAt: int, body: Body)

  datatype OutboxRow = OutboxRow(id: nat, event: Event)

  datatype Operation =
    | CreateOp | UpdateOp | DeleteOp | DeleteFollowingOp | BulkDeleteOp
    | ReminderAddOp | ReminderDeleteOp

  datatype ClaimKey = ClaimKey(user: nat, op: Operation, key: string)

  /** A request hash, taken as injective. */
  datatype Digest = OfInput(input: CreateInput) | OfBytes(bytes: nat) | OfId(id: nat)

  /** An idempotency claim: what was asked, what was answered, until when. */
  datatype Claim = Claim(subject: nat, digest: Digest, answer: Reply, expiresAt: int)

  datatype Reply =
    | Saved(id: nat, row: Row) | ReminderAdded(reminder: Reminder)
    | Removed | RemovedMany(count: nat) | Refused(error: Error)

  datatype State = State(
    schedules: map<nat, Row>, series: map<nat, Series>, claims: map<ClaimKey, Claim>,
    tombstones: set<nat>, outbox: seq<OutboxRow>, aiRows: map<nat, nat>, now: int,
    nextSchedule: nat, nextSeries: nat, nextReminder: nat, nextEvent: nat, nextAi: nat)

  function Empty(): State {
    State(map[], map[], map[], {}, [], map[], 0, 1, 0, 0, 0, 0)
  }

  // ---------- Requests ----------

  datatype CreateInput = CreateInput(
    title: string, description: Option<string>, location: Option<string>,
    startAt: int, endAt: Option<int>, allDay: bool, timezone: string,
    startDate: Option<DateText>, endDate: Option<DateText>, status: string, source: string,
    reminders: seq<ReminderInput>, recurrence: Option<nat>)

  datatype OccurrenceInput = OccurrenceInput(
    startAt: int, endAt: Option<int>, allDay: bool,
    startDate: Option<DateText>, endDate: Option<DateText>)

  datatype Call =
    | Create(user: nat, key: string, input: CreateInput)
    | CreateSeries(user: nat, key: string, input: CreateInput, occurrences: seq<OccurrenceInput>)
    | Update(user: nat, key: string, id: nat, patch: Patch, hash: nat)
    | Delete(user: nat, key: string, id: nat)
    | DeleteFollowing(user: nat, key: string, id: nat, expected: int, hash: nat)
    | BulkDelete(user: nat, key: string, ids: seq<nat>, hash: nat)
    | AddReminder(user: nat, key: string, id: nat, reminder: ReminderInput, hash: nat)
    | DeleteReminder(user: nat, key: string, id: nat, reminderId: nat)

  function Op(c: Call): Operation {
    match c
    case Create(_, _, _) => CreateOp
    case CreateSeries(_, _, _, _) => CreateOp
    case Update(_, _, _, _, _) => UpdateOp
    case Delete(_, _, _) => DeleteOp
    case DeleteFollowing(_, _, _, _, _) => DeleteFollowingOp
    case BulkDelete(_, _, _, _) => BulkDeleteOp
    case AddReminder(_, _, _, _, _) => ReminderAddOp
    case DeleteReminder(_, _, _, _) => ReminderDeleteOp
  }

  /** The schedule a claim is filed under; none for creations and bulk deletes. */
  function Subject(c: Call): nat {
    if c.Create? || c.CreateSeries? || c.BulkDelete? then 0 else c.id
  }

  /** CreateSchedule fills in defaults before hashing its input. */
  function Defaulted(i: CreateInput): CreateInput {
    i.(timezone := Named(i.timezone),
       status := if i.status == "" then "confirmed" else i.status,
       source := if i.source == "" then "manual" else i.source)
  }

  function DigestOf(c: Call): Digest {
    match c
    case Create(_, _, input) => OfInput(Defaulted(input))
    case CreateSeries(_, _, input, _) => OfInput(input)
    case Delete(_, _, id) => OfId(id)
    case DeleteReminder(_, _, _, reminderId) => OfId(reminderId)
    case Update(_, _, _, _, hash) => OfBytes(hash)
    case DeleteFollowing(_, _, _, _, hash) => OfBytes(hash)
    case BulkDelete(_, _, _, hash) => OfBytes(hash)
    case AddReminder(_, _, _, _, hash) => OfBytes(hash)
  }

  function KeyOf(c: Call): ClaimKey {
    ClaimKey(c.user, Op(c), c.key)
  }

  // ---------- Reminders ----------

  function Minutes(r: Reminder): int { r.minutes }

  /** The error `r` would raise after the reminders `earlier`. */
  function ReminderCheck(earlier: seq<ReminderInput>, r: ReminderInput): Option<Error> {
    if r.minutes < 0 || r.minutes > MAX_REMINDER_MINUTES || r.channel != "telegram"
    then Some(InvalidReminder)
    else if r in earlier then Some(DuplicateReminder) else None
  }

  function ReminderScan(rs: seq<ReminderInput>): Option<Error> {
    if rs == [] then None
    else
      var earlier := ReminderScan(rs[..|rs| - 1]);
      if earlier.Some? then earlier else ReminderCheck(rs[..|rs| - 1], rs[|rs| - 1])
  }

  /** validateReminderSet: the first fault of the list, if it has one. */
  function ReminderFault(rs: seq<ReminderInput>): Option<Error> {
    if |rs| > MAX_REMINDERS then Some(ReminderLimit) else ReminderScan(rs)
  }

  /** New reminders, numbered from `base`, in listing order. */
  function NewReminders(rs: seq<ReminderInput>, base: nat): seq<Reminder> {
    if rs == [] then []
    else
      var r := rs[|rs| - 1];
      Insert(
        NewReminders(rs[..|rs| - 1], base), Reminder(base + |rs| - 1, r.minutes, r.channel), Minutes)
  }

  function WithoutReminder(rs: seq<Reminder>, id: nat): seq<Reminder> {
    if rs == [] then []
    else (if rs[0].id == id then [] else [rs[0]]) + WithoutReminder(rs[1..], id)
  }

  predicate HasReminder(rs: seq<Reminder>, id: nat) {
    exists i | 0 <= i < |rs| :: rs[i].id == id
  }

  predicate HasPair(rs: seq<Reminder>, r: ReminderInput) {
    exists i | 0 <= i < |rs| :: rs[i].minutes == r.minutes && rs[i].channel == r.channel
  }

  // ---------- Changes and their events ----------

  function Pairs(rs: seq<Reminder>): (ps: seq<ReminderInput>)
    ensures |ps| == |rs|
  {
    seq(|rs|, i requires 0 <= i < |rs| => ReminderInput(rs[i].minutes, rs[i].channel))
  }

  /** toScheduleEvent: the published part of a row. */
  function SnapshotOf(r: Row): Snapshot {
    var f := r.fields;
    Snapshot(
      f.title, f.startAt, f.endAt, f.allDay, f.timezone, f.startDate, f.endDate,
      r.source, f.status, Pairs(r.reminders))
  }

  /** The snapshot shows the row: its times, dates, timezone, status, title, source
      and its whole reminder list, in order. */
  ghost predicate Pictures(p: Snapshot, r: Row) {
    && p.title == r.fields.title
    && p.startAt == r.fields.startAt && p.endAt == r.fields.endAt
    && p.allDay == r.fields.allDay && p.timezone == r.fields.timezone
    && p.startDate == r.fields.startDate && p.endDate == r.fields.endDate
    && p.source == r.source && p.status == r.fields.status
    && |p.reminders| == |r.reminders|
    && forall i | 0 <= i < |r.reminders| ::
         && p.reminders[i].minutes == r.reminders[i].minutes
         && p.reminders[i].channel == r.reminders[i].channel
  }

  /** A row has exactly one such snapshot, and it is the one published. */
  lemma SnapshotPictures(r: Row, p: Snapshot)
    ensures Pictures(p, r) <==> p == SnapshotOf(r)
  {
    if Pictures(p, r) {
      assert p.reminders == Pairs(r.reminders);
    }
  }

  datatype Change = Add(row: Row) | Put(id: nat, row: Row) | Drop(id: nat)

  /** The event a change enqueues. */
  function EventOf(s: State, c: Change): Event
    requires c.Drop? ==> c.id in s.schedules
  {
    match c
    case Add(row) =>
      Event(s.nextSchedule, row.owner, row.revision, s.now, Created(SnapshotOf(row)))
    case Put(id, row) => Event(id, row.owner, row.revision, s.now, Updated(SnapshotOf(row)))
    case Drop(id) =>
      Event(id, s.schedules[id].owner, s.schedules[id].revision + 1, s.now, Deleted)
  }

  function Enqueue(s: State, e: Event): State {
    s.(outbox := s.outbox + [OutboxRow(s.nextEvent, e)], nextEvent := s.nextEvent + 1)
  }

  /** One change: the row and its event, together. */
  function Apply(s: State, c: Change): State {
    match c
    case Add(row) =>
      Enqueue(s, EventOf(s, c)).(
        schedules := s.schedules[s.nextSchedule := row], nextSchedule := s.nextSchedule + 1)
    case Put(id, row) => Enqueue(s, EventOf(s, c)).(schedules := s.schedules[id := row])
    case Drop(id) =>
      if id in s.schedules then Enqueue(s, EventOf(s, c)).(schedules := s.schedules - {id}) else s
  }

  function ApplyAll(s: State, cs: seq<Change>): State {
    if cs == [] then s else Apply(ApplyAll(s, cs[..|cs| - 1]), cs[|cs| - 1])
  }

  // ---------- Effects ----------

  datatype Prune = KeepSeries | PruneOwner(user: nat) | PruneOne(series: nat)

  datatype Effect = Effect(
    changes: seq<Change>, remindersUsed: nat, newSeries: Option<Series>, prune: Prune,
    reply: Reply)

  predicate Orphan(schedules: map<nat, Row>, k: nat) {
    forall id | id in schedules :: schedules[id].slot.None? || schedules[id].slot.value.series != k
  }

  predicate Prunable(p: Prune, k: nat, owner: nat) {
    match p
    case KeepSeries => false
    case PruneOwner(user) => owner == user
    case PruneOne(series) => k == series
  }

  /** Delete the series in scope that no schedule belongs to any more. */
  function PruneSeries(s: State, p: Prune): State {
    s.(series := map k | k in s.series &&
      !(Prunable(p, k, s.series[k].owner) && Orphan(s.schedules, k)) :: s.series[k])
  }

  function AddSeries(s: State, added: Option<Series>): State {
    if added.None? then s
    else s.(series := s.series[s.nextSeries := added.value], nextSeries := s.nextSeries + 1)
  }

  function Commit(s: State, e: Effect): State {
    var s1 := ApplyAll(AddSeries(s, e.newSeries), e.changes);
    PruneSeries(s1.(nextReminder := s1.nextReminder + e.remindersUsed), e.prune)
  }

  // ---------- What each call asks for ----------

  predicate Owned(s: State, user: nat, id: nat) {
    id in s.schedules && s.schedules[id].owner == user
  }

  /** nullDate: an unparsable date is stored as NULL. */
  function StoredDate(d: Option<DateText>): Option<int> {
    if d.Some? && d.value.IsoDate? then Some(d.value.day) else None
  }

  function NewRow(user: nat, i: CreateInput, base: nat): Row {
    Row(
      user,
      Fields(
        i.title, i.description, i.location, i.startAt, i.endAt, i.allDay, i.timezone,
        StoredDate(i.startDate), StoredDate(i.endDate), i.status),
      i.source, 1, NewReminders(i.reminders, base), None)
  }

  function PlanCreate(s: State, user: nat, input: CreateInput): Effect {
    var row := NewRow(user, Defaulted(input), s.nextReminder);
    Effect([Add(row)], |input.reminders|, None, KeepSeries, Saved(s.nextSchedule, row))
  }

  function Used(n: nat, each: nat): nat {
    if n == 0 then 0 else Used(n - 1, each) + each
  }

  function OccurrenceRow(s: State, user: nat, i: CreateInput, o: OccurrenceInput, n: nat): Row {
    var row := NewRow(user, i, s.nextReminder + Used(n, |i.reminders|));
    row.(
      fields := row.fields.(
        startAt := o.startAt, endAt := o.endAt, allDay := o.allDay,
        startDate := StoredDate(o.startDate), endDate := StoredDate(o.endDate),
        status := if i.status == "" then "confirmed" else i.status),
      source := if i.source == "" then "manual" else i.source,
      slot := Some(Slot(s.nextSeries, n)))
  }

  function SeriesChanges(s: State, user: nat, i: CreateInput, os: seq<OccurrenceInput>): seq<Change> {
    if os == [] then []
    else
      var n := |os| - 1;
      SeriesChanges(s, user, i, os[..n]) + [Add(OccurrenceRow(s, user, i, os[n], n))]
  }

  function PlanCreateSeries(s: State, user: nat, i: CreateInput, os: seq<OccurrenceInput>): Effect
    requires i.recurrence.Some? && |os| > 0
  {
    Effect(
      SeriesChanges(s, user, i, os), Used(|os|, |i.reminders|),
      Some(Series(user, i.recurrence.value)), KeepSeries,
      Saved(s.nextSchedule, OccurrenceRow(s, user, i, os[0], 0)))
  }

  function Edited(row: Row, fields: Fields): Row {
    row.(fields := fields, revision := row.revision + 1)
  }

  function SaveEffect(id: nat, row: Row): Effect {
    Effect([Put(id, row)], 0, None, KeepSeries, Saved(id, row))
  }

  function PlanUpdate(zones: Zones, s: State, user: nat, id: nat, patch: Patch)
    : Result<Effect, Error>
  {
    if !Owned(s, user, id) then Err(NotFound)
    else if patch.expectedRevision.Some? && patch.expectedRevision.value != s.schedules[id].revision
    then Err(RevisionConflict)
    else
      var fields := Validated(Merge(zones, s.schedules[id].fields, patch));
      if fields.Err? then Err(fields.error)
      else Ok(SaveEffect(id, Edited(s.schedules[id], fields.value)))
  }

  /** The schedule that holds a place in a series. */
  ghost function Holder(schedules: map<nat, Row>, slot: Slot): Option<nat> {
    if exists id :: id in schedules && schedules[id].slot == Some(slot)
    then var id :| id in schedules && schedules[id].slot == Some(slot); Some(id)
    else None
  }

  /** The schedules of a series with index in [from, to), by index. */
  ghost function Targets(schedules: map<nat, Row>, series: nat, from: nat, to: nat): seq<nat> {
    if to <= from then []
    else
      var h := Holder(schedules, Slot(series, to - 1));
      Targets(schedules, series, from, to - 1) + if h.Some? then [h.value] else []
  }

  ghost function Later(s: State, slot: Slot): seq<nat> {
    Targets(s.schedules, slot.series, slot.index, MAX_OCCURRENCES)
  }

  /** The change a following-scope update makes to one of its targets. */
  function FollowingChange(
    zones: Zones, s: State, id: nat, merged: Fields, patch: Patch, target: nat)
    : Result<Change, Error>
    requires id in s.schedules && target in s.schedules
  {
    var fields :=
      if target == id then Ok(merged)
      else FollowingFields(
        zones, s.schedules[id].fields, merged, s.schedules[target].fields, patch);
    if fields.Err? then Err(fields.error)
    else Ok(Put(target, Edited(s.schedules[target], fields.value)))
  }

  function FollowingChanges(
    zones: Zones, s: State, id: nat, merged: Fields, patch: Patch, targets: seq<nat>)
    : Result<seq<Change>, Error>
    requires id in s.schedules
  {
    if targets == [] then Ok([])
    else
      var n := |targets| - 1;
      var rest := FollowingChanges(zones, s, id, merged, patch, targets[..n]);
      if rest.Err? then rest
      else if targets[n] !in s.schedules then Err(NotFound)
      else
        var c := FollowingChange(zones, s, id, merged, patch, targets[n]);
        if c.Err? then Err(c.error) else Ok(rest.value + [c.value])
  }

  /** The schedule is the user's and part of a series. */
  predicate Recurring(s: State, user: nat, id: nat) {
    && Owned(s, user, id) && s.schedules[id].slot.Some?
    && s.schedules[id].slot.value.series in s.series
  }

  predicate AllOwned(s: State, user: nat, ids: seq<nat>) {
    forall i | 0 <= i < |ids| :: Owned(s, user, ids[i])
  }

  ghost function PlanUpdateFollowing(zones: Zones, s: State, user: nat, id: nat, patch: Patch)
    : Result<Effect, Error>
  {
    if !Recurring(s, user, id) then Err(NotRecurring)
    else
      var row := s.schedules[id];
      var targets := Later(s, row.slot.value);
      if targets == [] || !AllOwned(s, user, targets) then Err(NotFound)
      else if patch.expectedRevision.Some? && patch.expectedRevision.value != row.revision
      then Err(RevisionConflict)
      else
        var merged := Validated(Merge(zones, row.fields, patch));
        if merged.Err? then Err(merged.error)
        else
          var changes := FollowingChanges(zones, s, id, merged.value, patch, targets);
          if changes.Err? then Err(changes.error)
          else Ok(Effect(
            changes.value, 0, None, KeepSeries, Saved(id, Edited(row, merged.value))))
  }

  function Drops(ids: seq<nat>): (cs: seq<Change>)
    ensures |cs| == |ids|
  {
    seq(|ids|, i requires 0 <= i < |ids| => Drop(ids[i]))
  }

  function PlanDelete(s: State, user: nat, id: nat): Result<Effect, Error> {
    if !Owned(s, user, id) then Err(NotFound)
    else Ok(Effect([Drop(id)], 0, None, PruneOwner(user), Removed))
  }

  ghost function PlanDeleteFollowing(s: State, user: nat, id: nat, expected: int)
    : Result<Effect, Error>
  {
    if !Recurring(s, user, id) then Err(NotRecurring)
    else
      var row := s.schedules[id];
      var targets := Later(s, row.slot.value);
      if targets == [] || !AllOwned(s, user, targets) then Err(NotFound)
      else if row.revision != expected then Err(RevisionConflict)
      else Ok(Effect(Drops(targets), 0, None, PruneOne(row.slot.value.series), Removed))
  }

  function ById(id: nat): int { id }

  /** All or nothing: every id once, every id the caller's. */
  ghost function PlanBulkDelete(s: State, user: nat, ids: seq<nat>): Result<Effect, Error> {
    if !AllOwned(s, user, ids) || !Distinct(ids) then Err(NotFound)
    else Ok(Effect(Drops(Sort(ids, ById)), 0, None, PruneOwner(user), RemovedMany(|ids|)))
  }

  function PlanAddReminder(s: State, user: nat, id: nat, r: ReminderInput): Result<Effect, Error> {
    if !Owned(s, user, id) then Err(NotFound)
    else
      var row := s.schedules[id];
      if |row.reminders| >= MAX_REMINDERS then Err(ReminderLimit)
      else if HasPair(row.reminders, r) then Err(DuplicateReminder)
      else
        var added := Reminder(s.nextReminder, r.minutes, r.channel);
        var row' := row.(
          reminders := Insert(row.reminders, added, Minutes), revision := row.revision + 1);
        Ok(Effect([Put(id, row')], 1, None, KeepSeries, ReminderAdded(added)))
  }

  function PlanDeleteReminder(s: State, user: nat, id: nat, reminderId: nat)
    : Result<Effect, Error>
  {
    if !Owned(s, user, id) then Err(NotFound)
    else
      var row := s.schedules[id];
      if !HasReminder(row.reminders, reminderId) then Err(NotFound)
      else
        var row' := row.(
          reminders := WithoutReminder(row.reminders, reminderId), revision := row.revision + 1);
        Ok(Effect([Put(id, row')], 0, None, KeepSeries, Removed))
  }

  ghost function Plan(zones: Zones, s: State, c: Call): Result<Effect, Error>
    requires Fault(c).None?
  {
    match c
    case Create(user, _, input) => Ok(PlanCreate(s, user, input))
    case CreateSeries(user, _, input, os) => Ok(PlanCreateSeries(s, user, input, os))
    case Update(user, _, id, patch, _) =>
      if patch.scope == Following then PlanUpdateFollowing(zones, s, user, id, patch)
      else PlanUpdate(zones, s, user, id, patch)
    case Delete(user, _, id) => PlanDelete(s, user, id)
    case DeleteFollowing(user, _, id, expected, _) => PlanDeleteFollowing(s, user, id, expected)
    case BulkDelete(user, _, ids, _) => PlanBulkDelete(s, user, ids)
    case AddReminder(user, _, id, r, _) => PlanAddReminder(s, user, id, r)
    case DeleteReminder(user, _, id, reminderId) => PlanDeleteReminder(s, user, id, reminderId)
  }

  // ---------- One call, one transaction ----------

  /** Faults found before any table is read. */
  function Fault(c: Call): Option<Error> {
    match c
    case Create(_, _, input) => ReminderFault(input.reminders)
    case CreateSeries(_, _, input, os) =>
      if input.recurrence.None? || |os| == 0 || |os| > MAX_OCCURRENCES then Some(InvalidSchedule)
      else ReminderFault(input.reminders)
    case AddReminder(_, _, _, r, _) => ReminderFault([r])
    case Update(_, _, _, patch, _) =>
      if patch.scope == OtherScope then Some(InvalidSchedule) else None
    case _ => None
  }

  predicate Live(s: State, k: ClaimKey) {
    k in s.claims && s.now < s.claims[k].expiresAt
  }

  /** The answer to a repeated request whose claim matches. */
  function Replay(s: State, c: Call, answer: Reply): Reply {
    match Op(c)
    case CreateOp =>
      if answer.Saved? && Owned(s, c.user, answer.id) then answer else Refused(IdempotencyConflict)
    case UpdateOp => if Owned(s, c.user, Subject(c)) then answer else Refused(NotFound)
    case ReminderAddOp =>
      if !Owned(s, c.user, Subject(c)) then Refused(NotFound)
      else if answer.ReminderAdded? &&
              HasReminder(s.schedules[Subject(c)].reminders, answer.reminder.id)
      then answer else Refused(IdempotencyConflict)
    case _ => answer
  }

  /** How a call ends: without effect, or with one. */
  datatype Verdict = Answered(reply: Reply) | Applied(effect: Effect)

  ghost function Judge(zones: Zones, s: State, c: Call): Verdict {
    if Fault(c).Some? then Answered(Refused(Fault(c).value))
    else if c.user in s.tombstones then Answered(Refused(AccountDeleted))
    else if c.key != "" && Live(s, KeyOf(c)) then
      var claim := s.claims[KeyOf(c)];
      if claim.subject != Subject(c) || claim.digest != DigestOf(c)
      then Answered(Refused(IdempotencyConflict))
      else Answered(Replay(s, c, claim.answer))
    else
      var plan := Plan(zones, s, c);
      if plan.Err? then Answered(Refused(plan.error)) else Applied(plan.value)
  }

  function FileClaim(s: State, c: Call, answer: Reply): State {
    if c.key == "" then s
    else s.(claims := s.claims[KeyOf(c) :=
      Claim(Subject(c), DigestOf(c), answer, s.now + CLAIM_MILLIS)])
  }

  /** The state after a call. */
  ghost function After(zones: Zones, s: State, c: Call): State {
    match Judge(zones, s, c)
    case Answered(_) => s
    case Applied(e) => FileClaim(Commit(s, e), c, e.reply)
  }

  ghost function ReplyTo(zones: Zones, s: State, c: Call): Reply {
    match Judge(zones, s, c)
    case Answered(r) => r
    case Applied(e) => e.reply
  }

  // ---------- Account erasure ----------

  /** The outbox row concerns the user: by payload, or by schedule. */
  predicate Concerns(s: State, user: nat, o: OutboxRow) {
    o.event.owner == user || Owned(s, user, o.event.schedule)
  }

  function Unconcerned(s: State, user: nat, outbox: seq<OutboxRow>): seq<OutboxRow> {
    if outbox == [] then []
    else
      var n := |outbox| - 1;
      Unconcerned(s, user, outbox[..n]) + if Concerns(s, user, outbox[n]) then [] else [outbox[n]]
  }

  /** CleanupDeletedAccount: the tombstone stays, everything owned goes. */
  function Erase(s: State, user: nat): State {
    s.(
      tombstones := s.tombstones + {user},
      outbox := Unconcerned(s, user, s.outbox),
      claims := map k | k in s.claims && k.user != user :: s.claims[k],
      series := map k | k in s.series && s.series[k].owner != user :: s.series[k],
      aiRows := map k | k in s.aiRows && s.aiRows[k] != user :: s.aiRows[k],
      schedules := map k | k in s.schedules && s.schedules[k].owner != user :: s.schedules[k])
  }

  // ---------- Runs ----------

  /** `AiWrite` stands for the extraction tables' inserts, which also check the
      tombstone first. */
  datatype Action = Do(call: Call) | EraseAccount(user: nat) | AiWrite(user: nat) | Tick(millis: nat)

  ghost function Act(zones: Zones, s: State, a: Action): State {
    match a
    case Do(c) => After(zones, s, c)
    case EraseAccount(user) => Erase(s, user)
    case AiWrite(user) =>
      if user in s.tombstones then s
      else s.(aiRows := s.aiRows[s.nextAi := user], nextAi := s.nextAi + 1)
    case Tick(millis) => s.(now := s.now + millis)
  }

  ghost function Run(zones: Zones, s: State, actions: seq<Action>): State {
    if actions == [] then s
    else Act(zones, Run(zones, s, actions[..|actions| - 1]), actions[|actions| - 1])
  }
}
