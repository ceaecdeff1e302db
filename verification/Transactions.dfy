/**
 The service's transactions, statement by statement.  Each works on its own copy
 of the tables: returning that copy is the commit, returning the tables it was
 given is the rollback.  Every one is proved to do exactly what the ledger says
 of its call.
 */
module Transactions {
  import opened Prelude
  import opened Patching
  import opened Ledger
  import opened Changes
  import opened Structure
  import opened Runs
  import opened Claims
  import opened Tails

  type ClaimTable = map<ClaimKey, Claim>

  /** What an attempt to insert a claim finds. */
  datatype ClaimOutcome = Fresh | Replayed(answer: Reply) | Conflict

  // ---------- Statements ----------

  method ValidateReminderSet(reminders: seq<ReminderInput>) returns (fault: Option<Error>)
    ensures fault == ReminderFault(reminders)
  {
    if |reminders| > MAX_REMINDERS {
      return Some(ReminderLimit);
    }
    var seen: set<ReminderInput> := {};
    var i := 0;
    while i < |reminders|
      invariant 0 <= i <= |reminders|
      invariant ReminderScan(reminders[..i]).None?
      invariant forall r :: r in seen <==> r in reminders[..i]
    {
      var r := reminders[i];
      assert reminders[..i + 1][..i] == reminders[..i];
      if r.minutes < 0 || r.minutes > MAX_REMINDER_MINUTES || r.channel != "telegram" {
        ScanFails(reminders, i + 1);
        return Some(InvalidReminder);
      }
      if r in seen {
        ScanFails(reminders, i + 1);
        return Some(DuplicateReminder);
      }
      seen := seen + {r};
      i := i + 1;
    }
    assert reminders[..i] == reminders;
    return None;
  }

  /** The first fault of a prefix is the first fault of the list. */
  lemma {:induction false} ScanFails(rs: seq<ReminderInput>, n: nat)
    requires n <= |rs| && ReminderScan(rs[..n]).Some?
    ensures ReminderScan(rs) == ReminderScan(rs[..n])
    decreases |rs|
  {
    if n == |rs| {
      assert rs[..n] == rs;
    } else {
      var t := rs[..|rs| - 1];
      assert t[..n] == rs[..n];
      ScanFails(t, n);
    }
  }

  /** The claim a request files: its answer is filled in before the commit. */
  function Pending(subject: nat, digest: Digest, now: int): Claim {
    Claim(subject, digest, Removed, now + CLAIM_MILLIS)
  }

  function Outcome(s: State, k: ClaimKey, subject: nat, digest: Digest): ClaimOutcome {
    if !Live(s, k) then Fresh
    else if s.claims[k].subject != subject || s.claims[k].digest != digest then Conflict
    else Replayed(s.claims[k].answer)
  }

  /** claimScheduleMutation. */
  method ClaimMutation(s: State, k: ClaimKey, subject: nat, digest: Digest)
    returns (claims: ClaimTable, outcome: ClaimOutcome)
    ensures outcome == Outcome(s, k, subject, digest)
    ensures claims ==
      if outcome.Fresh? then s.claims[k := Pending(subject, digest, s.now)] else s.claims
  {
    claims := s.claims;
    if k in claims && claims[k].expiresAt <= s.now {
      claims := claims - {k};
    }
    if k !in claims {
      claims := claims[k := Pending(subject, digest, s.now)];
      assert claims == s.claims[k := Pending(subject, digest, s.now)];
      outcome := Fresh;
    } else if claims[k].subject != subject || claims[k].digest != digest {
      outcome := Conflict;
    } else {
      outcome := Replayed(claims[k].answer);
    }
  }

  function WithAnswer(claims: ClaimTable, k: ClaimKey, answer: Reply): ClaimTable
    requires k in claims
  {
    claims[k := claims[k].(answer := answer)]
  }

  /** SELECT revision ... FOR UPDATE. */
  method LockRevision(s: State, user: nat, id: nat) returns (revision: Option<nat>)
    ensures revision == if Owned(s, user, id) then Some(s.schedules[id].revision) else None
  {
    if id in s.schedules && s.schedules[id].owner == user {
      return Some(s.schedules[id].revision);
    }
    return None;
  }

  /** The reminders of a new schedule, inserted one by one. */
  method InsertReminders(rs: seq<ReminderInput>, base: nat)
    returns (list: seq<Reminder>, next: nat)
    ensures list == NewReminders(rs, base) && next == base + |rs|
  {
    list, next := [], base;
    var i := 0;
    while i < |rs|
      invariant 0 <= i <= |rs|
      invariant list == NewReminders(rs[..i], base) && next == base + i
    {
      assert rs[..i + 1][..i] == rs[..i];
      list := Insert(list, Reminder(next, rs[i].minutes, rs[i].channel), Minutes);
      next := next + 1;
      i := i + 1;
    }
    assert rs[..i] == rs;
  }

  /** toScheduleEvent, with its loop over the reminders. */
  method ToScheduleEvent(id: nat, row: Row, occurredAt: int, created: bool) returns (e: Event)
    ensures e == Event(id, row.owner, row.revision, occurredAt, e.body)
    ensures if created then e.body.Created? else e.body.Updated?
    ensures Pictures(e.body.snapshot, row) && e.body.snapshot == SnapshotOf(row)
  {
    var reminders: seq<ReminderInput> := [];
    var i := 0;
    while i < |row.reminders|
      invariant 0 <= i <= |row.reminders| && |reminders| == i
      invariant forall j | 0 <= j < i :: reminders[j] == Pairs(row.reminders)[j]
    {
      reminders := reminders + [ReminderInput(row.reminders[i].minutes, row.reminders[i].channel)];
      i := i + 1;
    }
    assert reminders == Pairs(row.reminders);
    var f := row.fields;
    var snapshot := Snapshot(
      f.title, f.startAt, f.endAt, f.allDay, f.timezone, f.startDate, f.endDate,
      row.source, f.status, reminders);
    SnapshotPictures(row, snapshot);
    e := Event(id, row.owner, row.revision, occurredAt,
      if created then Created(snapshot) else Updated(snapshot));
  }

  // ---------- How a transaction ends ----------

  ghost predicate Admitted(s: State, c: Call) {
    Fault(c).None? && c.user !in s.tombstones && (c.key == "" || !Live(s, KeyOf(c)))
  }

  /** The claim table a call commits. */
  ghost function ClaimsAfter(s: State, c: Call, answer: Reply): ClaimTable {
    if c.key == "" then s.claims
    else s.claims[KeyOf(c) := Claim(Subject(c), DigestOf(c), answer, s.now + CLAIM_MILLIS)]
  }

  lemma Committed(zones: Zones, s: State, c: Call, e: Effect)
    requires Admitted(s, c) && Plan(zones, s, c) == Ok(e)
    ensures After(zones, s, c) == Commit(s, e).(claims := ClaimsAfter(s, c, e.reply))
    ensures ReplyTo(zones, s, c) == e.reply
  {
    FrameOfCommit(s, e);
  }

  lemma RolledBack(zones: Zones, s: State, c: Call, error: Error)
    requires Admitted(s, c) && Plan(zones, s, c) == Err(error)
    ensures After(zones, s, c) == s && ReplyTo(zones, s, c) == Refused(error)
  {
  }

  lemma OneChangeCommits(s: State, change: Change, reminders: nat, reply: Reply)
    ensures Commit(s, Effect([change], reminders, None, KeepSeries, reply)) ==
      Apply(s, change).(nextReminder := s.nextReminder + reminders)
  {
    assert [change][..0] == [];
    assert ApplyAll(s, [change][..0]) == s;
    assert ApplyAll(s, [change]) == Apply(s, change);
    PruneNothing(Apply(s, change).(nextReminder := s.nextReminder + reminders));
  }

  lemma PruneNothing(s: State)
    ensures PruneSeries(s, KeepSeries) == s
  {
    assert PruneSeries(s, KeepSeries).series == s.series;
  }

  /** The start of every transaction: the tombstone check, then the claim.  It
      ends the call early, or leaves a claim table with the claim inserted. */
  method Begin(zones: Zones, s: State, c: Call) returns (claims: ClaimTable, early: Option<Reply>)
    requires Fault(c).None?
    ensures early.Some? ==> After(zones, s, c) == s && ReplyTo(zones, s, c) == early.value
    ensures early.None? ==> Admitted(s, c) && claims == ClaimsAfter(s, c, Removed)
  {
    claims := s.claims;
    if c.user in s.tombstones {
      return claims, Some(Refused(AccountDeleted));
    }
    if c.key != "" {
      var outcome;
      claims, outcome := ClaimMutation(s, KeyOf(c), Subject(c), DigestOf(c));
      match outcome
      case Conflict => return claims, Some(Refused(IdempotencyConflict));
      case Replayed(answer) => return claims, Some(Replay(s, c, answer));
      case Fresh =>
    }
    return claims, None;
  }

  /** The end of a transaction: the answer goes into the claim. */
  method Finish(tx: State, c: Call, claims: ClaimTable, answer: Reply, ghost s: State)
    returns (t: State)
    requires claims == ClaimsAfter(s, c, Removed)
    ensures t == tx.(claims := ClaimsAfter(s, c, answer))
  {
    t := tx.(claims := if c.key == "" then claims else WithAnswer(claims, KeyOf(c), answer));
    assert t.claims == ClaimsAfter(s, c, answer);
  }

  // ---------- Creations ----------

  method FillDefaults(input: CreateInput) returns (full: CreateInput)
    ensures full == Defaulted(input)
  {
    full := input;
    if full.timezone == "" { full := full.(timezone := "UTC"); }
    if full.status == "" { full := full.(status := "confirmed"); }
    if full.source == "" { full := full.(source := "manual"); }
  }

  /** The row and its reminders are inserted, no event yet. */
  method InsertSchedule(s: State, bare: Row, reminders: seq<ReminderInput>) returns (tx: State)
    ensures var row := bare.(reminders := NewReminders(reminders, s.nextReminder));
      tx == WithRow(s, row, |reminders|)
  {
    var id := s.nextSchedule;
    tx := s.(schedules := s.schedules[id := bare], nextSchedule := id + 1);
    var list, next := InsertReminders(reminders, s.nextReminder);
    tx := tx.(schedules := tx.schedules[id := bare.(reminders := list)], nextReminder := next);
    assert tx.schedules == s.schedules[id := bare.(reminders := list)];
  }

  function WithRow(s: State, row: Row, reminders: nat): State {
    s.(schedules := s.schedules[s.nextSchedule := row], nextSchedule := s.nextSchedule + 1,
       nextReminder := s.nextReminder + reminders)
  }

  /** enqueueScheduleEvent. */
  method EnqueueScheduleEvent(tx: State, id: nat, created: bool) returns (t: State)
    requires id in tx.schedules
    ensures var row := tx.schedules[id];
      t == Enqueue(tx, Event(id, row.owner, row.revision, tx.now,
        if created then Created(SnapshotOf(row)) else Updated(SnapshotOf(row))))
  {
    var event := ToScheduleEvent(id, tx.schedules[id], tx.now, created);
    t := Enqueue(tx, event);
  }

  /** CreateSchedule. */
  method CreateSchedule(zones: Zones, s: State, user: nat, key: string, input: CreateInput)
    returns (t: State, r: Reply)
    ensures t == After(zones, s, Create(user, key, input))
    ensures r == ReplyTo(zones, s, Create(user, key, input))
  {
    var c := Create(user, key, input);
    var fault := ValidateReminderSet(input.reminders);
    if fault.Some? {
      return s, Refused(fault.value);
    }
    var full := FillDefaults(input);
    var claims, early := Begin(zones, s, c);
    if early.Some? {
      return s, early.value;
    }
    var tx := InsertSchedule(s, NewRow(user, full.(reminders := []), 0), full.reminders);
    var row := tx.schedules[s.nextSchedule];
    tx := EnqueueScheduleEvent(tx, s.nextSchedule, true);
    r := Saved(s.nextSchedule, row);
    Committed(zones, s, c, PlanCreate(s, user, input));
    OneChangeCommits(s, Add(row), |input.reminders|, r);
    t := Finish(tx, c, claims, r, s);
  }

  // ---------- Series: all rows first, all events afterwards ----------

  /** The tables after the changes `cs`, with the outbox only as far as `done`. */
  ghost function Unannounced(s: State, cs: seq<Change>, done: seq<Change>, reminders: nat): State {
    var announced := ApplyAll(s, done);
    ApplyAll(s, cs).(
      outbox := announced.outbox, nextEvent := announced.nextEvent,
      nextReminder := s.nextReminder + reminders)
  }

  lemma {:induction false} AddsFill(s: State, cs: seq<Change>, j: nat)
    requires j < |cs| && forall i | 0 <= i < |cs| :: cs[i].Add?
    ensures ApplyAll(s, cs).nextSchedule == s.nextSchedule + |cs|
    ensures s.nextSchedule + j in ApplyAll(s, cs).schedules
    ensures ApplyAll(s, cs).schedules[s.nextSchedule + j] == cs[j].row
  {
    var n := |cs| - 1;
    var t := cs[..n];
    assert forall i | 0 <= i < n :: t[i] == cs[i];
    if n > 0 {
      AddsFill(s, t, if j < n then j else 0);
    }
  }

  lemma {:induction false} SeriesAdds(s: State, user: nat, i: CreateInput, os: seq<OccurrenceInput>)
    ensures |SeriesChanges(s, user, i, os)| == |os|
    ensures forall j | 0 <= j < |os| ::
      SeriesChanges(s, user, i, os)[j] == Add(OccurrenceRow(s, user, i, os[j], j))
  {
    if os != [] {
      SeriesAdds(s, user, i, os[..|os| - 1]);
    }
  }

  /** The occurrence's row before its reminders are inserted. */
  function BareOccurrence(
    series: nat, user: nat, i: CreateInput, o: OccurrenceInput, n: nat, status: string, source: string)
    : Row
  {
    Row(
      user,
      Fields(
        i.title, i.description, i.location, o.startAt, o.endAt, o.allDay, i.timezone,
        StoredDate(o.startDate), StoredDate(o.endDate), status),
      source, 1, [], Some(Slot(series, n)))
  }

  lemma BareBecomes(
    s: State, user: nat, i: CreateInput, o: OccurrenceInput, n: nat, status: string, source: string)
    requires status == (if i.status == "" then "confirmed" else i.status)
    requires source == (if i.source == "" then "manual" else i.source)
    ensures BareOccurrence(s.nextSeries, user, i, o, n, status, source).(
        reminders := NewReminders(i.reminders, s.nextReminder + Used(n, |i.reminders|))) ==
      OccurrenceRow(s, user, i, o, n)
  {
  }

  lemma InsertedNext(s: State, s0: State, user: nat, i: CreateInput, os: seq<OccurrenceInput>, n: nat)
    requires n < |os|
    ensures var cs, cs' := SeriesChanges(s, user, i, os[..n]), SeriesChanges(s, user, i, os[..n + 1]);
      var each := |i.reminders|;
      Unannounced(s0, cs', [], Used(n + 1, each)) == WithRow(
        Unannounced(s0, cs, [], Used(n, each)), OccurrenceRow(s, user, i, os[n], n), each)
  {
    var cs, cs' := SeriesChanges(s, user, i, os[..n]), SeriesChanges(s, user, i, os[..n + 1]);
    assert os[..n + 1][..n] == os[..n];
    assert cs' == cs + [Add(OccurrenceRow(s, user, i, os[n], n))];
    assert cs'[..|cs|] == cs;
  }

  lemma NothingInserted(s: State, s0: State, user: nat, i: CreateInput, os: seq<OccurrenceInput>)
    requires os == []
    ensures Unannounced(s0, SeriesChanges(s, user, i, os), [], Used(0, |i.reminders|)) == s0
  {
  }

  /** The first loop: every occurrence's row, place and reminders. */
  method InsertOccurrences(
    s: State, s0: State, user: nat, input: CreateInput, os: seq<OccurrenceInput>)
    returns (tx: State)
    requires s0.nextReminder == s.nextReminder
    ensures tx == Unannounced(
      s0, SeriesChanges(s, user, input, os), [], Used(|os|, |input.reminders|))
  {
    tx := s0;
    NothingInserted(s, s0, user, input, os[..0]);
    var i := 0;
    while i < |os|
      invariant 0 <= i <= |os|
      invariant tx == Unannounced(
        s0, SeriesChanges(s, user, input, os[..i]), [], Used(i, |input.reminders|))
    {
      tx := InsertOccurrence(s, tx, user, input, os[i], i);
      InsertedNext(s, s0, user, input, os, i);
      i := i + 1;
    }
    assert os[..i] == os;
  }

  method InsertOccurrence(
    s: State, tx: State, user: nat, input: CreateInput, o: OccurrenceInput, i: nat)
    returns (next: State)
    requires tx.nextReminder == s.nextReminder + Used(i, |input.reminders|)
    ensures next == WithRow(tx, OccurrenceRow(s, user, input, o, i), |input.reminders|)
  {
    var status := if input.status == "" then "confirmed" else input.status;
    var source := if input.source == "" then "manual" else input.source;
    BareBecomes(s, user, input, o, i, status, source);
    var bare := BareOccurrence(s.nextSeries, user, input, o, i, status, source);
    next := InsertSchedule(tx, bare, input.reminders);
  }

  /** The event of the next added row. */
  lemma AddAnnounced(s0: State, cs: seq<Change>, j: nat)
    requires j < |cs| && forall i | 0 <= i < |cs| :: cs[i].Add?
    ensures var before, after := ApplyAll(s0, cs[..j]), ApplyAll(s0, cs[..j + 1]);
      var row := cs[j].row;
      && after.nextEvent == before.nextEvent + 1
      && after.outbox == before.outbox + [OutboxRow(before.nextEvent,
           Event(s0.nextSchedule + j, row.owner, row.revision, s0.now, Created(SnapshotOf(row))))]
  {
    assert cs[..j + 1][..j] == cs[..j];
    ApplyAllFrame(s0, cs[..j]);
    AddsCount(s0, cs[..j]);
  }

  lemma {:induction false} AddsCount(s: State, cs: seq<Change>)
    requires forall i | 0 <= i < |cs| :: cs[i].Add?
    ensures ApplyAll(s, cs).nextSchedule == s.nextSchedule + |cs|
  {
    if cs != [] {
      AddsCount(s, cs[..|cs| - 1]);
    }
  }

  lemma AnnouncedNext(s0: State, cs: seq<Change>, j: nat, reminders: nat)
    requires j < |cs| && forall i | 0 <= i < |cs| :: cs[i].Add?
    ensures var tx, id := Unannounced(s0, cs, cs[..j], reminders), s0.nextSchedule + j;
      && id in tx.schedules
      && var row := tx.schedules[id];
         Unannounced(s0, cs, cs[..j + 1], reminders) ==
         Enqueue(tx, Event(id, row.owner, row.revision, tx.now, Created(SnapshotOf(row))))
  {
    AddsFill(s0, cs, j);
    AddAnnounced(s0, cs, j);
    ApplyAllFrame(s0, cs);
  }

  /** The second loop: every occurrence's event. */
  method AnnounceOccurrences(s0: State, ghost cs: seq<Change>, bare: State, n: nat, ghost reminders: nat)
    returns (tx: State)
    requires n == |cs| && forall i | 0 <= i < |cs| :: cs[i].Add?
    requires bare == Unannounced(s0, cs, [], reminders)
    ensures tx == ApplyAll(s0, cs).(nextReminder := s0.nextReminder + reminders)
  {
    tx := bare;
    var j := 0;
    while j < n
      invariant 0 <= j <= n
      invariant tx == Unannounced(s0, cs, cs[..j], reminders)
    {
      AnnouncedNext(s0, cs, j, reminders);
      tx := EnqueueScheduleEvent(tx, s0.nextSchedule + j, true);
      j := j + 1;
    }
    assert cs[..j] == cs;
  }

  /** CreateRecurringSchedules. */
  method CreateRecurringSchedules(
    zones: Zones, s: State, user: nat, key: string, input: CreateInput, os: seq<OccurrenceInput>)
    returns (t: State, r: Reply)
    ensures t == After(zones, s, CreateSeries(user, key, input, os))
    ensures r == ReplyTo(zones, s, CreateSeries(user, key, input, os))
  {
    if input.recurrence.None? || |os| == 0 || |os| > MAX_OCCURRENCES {
      return s, Refused(InvalidSchedule);
    }
    var fault := ValidateReminderSet(input.reminders);
    if fault.Some? {
      return s, Refused(fault.value);
    }
    var c := CreateSeries(user, key, input, os);
    var claims, early := Begin(zones, s, c);
    if early.Some? {
      return s, early.value;
    }
    var tx;
    tx, r := WriteSeries(s, user, input, os);
    Committed(zones, s, c, PlanCreateSeries(s, user, input, os));
    t := Finish(tx, c, claims, r, s);
  }

  method WriteSeries(s: State, user: nat, input: CreateInput, os: seq<OccurrenceInput>)
    returns (tx: State, r: Reply)
    requires input.recurrence.Some? && |os| > 0
    ensures var e := PlanCreateSeries(s, user, input, os); tx == Commit(s, e) && r == e.reply
  {
    var s0 := AddSeries(s, Some(Series(user, input.recurrence.value)));
    ghost var cs := SeriesChanges(s, user, input, os);
    ghost var used := Used(|os|, |input.reminders|);
    SeriesAdds(s, user, input, os);
    AddsFill(s0, cs, 0);
    tx := InsertOccurrences(s, s0, user, input, os);
    r := Saved(s.nextSchedule, tx.schedules[s.nextSchedule]);
    tx := AnnounceOccurrences(s0, cs, tx, |os|, used);
    ApplyAllFrame(s0, cs);
    PruneNothing(tx);
  }

  // ---------- Updates ----------

  /** UPDATE schedules SET ..., revision = revision + 1, then its event. */
  method WriteFields(tx: State, id: nat, fields: Fields) returns (t: State)
    requires id in tx.schedules
    ensures t == Apply(tx, Put(id, Edited(tx.schedules[id], fields)))
  {
    var row := tx.schedules[id];
    t := tx.(schedules := tx.schedules[id := row.(fields := fields, revision := row.revision + 1)]);
    t := EnqueueScheduleEvent(t, id, false);
  }

  method ValidateScheduleFields(fields: Fields) returns (ok: bool)
    ensures ok == Spaced(fields)
  {
    return !(fields.endAt.Some? && fields.endAt.value - fields.startAt < 1_000_000);
  }

  /** The tables after an effect whose reply is the schedule as saved. */
  ghost predicate Performs(s: State, e: Effect, id: nat, tx: State) {
    tx == Commit(s, e) && id in tx.schedules && e.reply == Saved(id, tx.schedules[id])
  }

  /** The work of UpdateSchedule between its claim and its commit. */
  method UpdateOne(zones: Zones, s: State, user: nat, id: nat, patch: Patch)
    returns (r: Result<State, Error>)
    ensures var plan := PlanUpdate(zones, s, user, id, patch);
      match r
      case Err(error) => plan == Err(error)
      case Ok(tx) => plan.Ok? && Performs(s, plan.value, id, tx)
  {
    var revision := LockRevision(s, user, id);
    if revision.None? {
      return Err(NotFound);
    }
    if patch.expectedRevision.Some? && revision.value != patch.expectedRevision.value {
      return Err(RevisionConflict);
    }
    var fields := MergeSchedulePatchFields(zones, s.schedules[id].fields, patch);
    if fields.Err? {
      return Err(fields.error);
    }
    var ok := ValidateScheduleFields(fields.value);
    if !ok {
      return Err(InvalidSchedule);
    }
    var row := Edited(s.schedules[id], fields.value);
    OneChangeCommits(s, Put(id, row), 0, Saved(id, row));
    var tx := WriteFields(s, id, fields.value);
    return Ok(tx);
  }

  // ---------- The following scope ----------

  function IndexIn(schedules: map<nat, Row>): nat -> int {
    (id: nat) => if id in schedules && schedules[id].slot.Some? then schedules[id].slot.value.index else 0
  }

  /** SELECT schedule_id ... WHERE series_id = ? AND occurrence_index >= ? ORDER BY
      occurrence_index. */
  method QueryTail(s: State, id: nat) returns (targets: seq<nat>)
    requires Placed(s) && id in s.schedules && s.schedules[id].slot.Some?
    ensures targets == Later(s, s.schedules[id].slot.value)
  {
    var slot := s.schedules[id].slot.value;
    var found: set<nat> := set k: nat | k in s.schedules && s.schedules[k].slot.Some? &&
      s.schedules[k].slot.value.series == slot.series &&
      slot.index <= s.schedules[k].slot.value.index;
    var list: seq<nat> := Enumerate<nat>(found);
    targets := Sort<nat>(list, IndexIn(s.schedules));
    TargetsAreTheTail(s, id);
    SortedTail(s, id, list);
  }

  lemma SortedTail(s: State, id: nat, list: seq<nat>)
    requires Placed(s) && id in s.schedules && s.schedules[id].slot.Some?
    requires Distinct(list) && forall k: nat :: k in list <==> InTail(s, id, k)
    ensures Sort<nat>(list, IndexIn(s.schedules)) == Later(s, s.schedules[id].slot.value)
  {
    var slot, key := s.schedules[id].slot.value, IndexIn(s.schedules);
    forall i, j | 0 <= i < j < |list|
      ensures key(list[i]) != key(list[j])
    {
      assert InTail(s, id, list[i]) && InTail(s, id, list[j]);
    }
    SortSorts<nat>(list, key);
    TargetsAreTheTail(s, id);
    TargetsHold(s.schedules, slot.series, slot.index, MAX_OCCURRENCES);
    AscendingUnique<nat>(Sort<nat>(list, key), Later(s, slot), key);
  }

  ghost predicate RevisionsOf(s: State, targets: seq<nat>, revisions: seq<nat>) {
    && |revisions| == |targets|
    && forall i | 0 <= i < |targets| ::
         targets[i] in s.schedules && revisions[i] == s.schedules[targets[i]].revision
  }

  /** Lock every target's row; `None` if one of them is not the user's. */
  method LockAll(s: State, user: nat, targets: seq<nat>) returns (revisions: Option<seq<nat>>)
    ensures revisions.Some? <==> AllOwned(s, user, targets)
    ensures revisions.Some? ==> RevisionsOf(s, targets, revisions.value)
  {
    var list: seq<nat> := [];
    var i := 0;
    while i < |targets|
      invariant 0 <= i <= |targets| && |list| == i
      invariant forall j | 0 <= j < i ::
        Owned(s, user, targets[j]) && list[j] == s.schedules[targets[j]].revision
    {
      var revision := LockRevision(s, user, targets[i]);
      if revision.None? {
        assert !Owned(s, user, targets[i]);
        return None;
      }
      list := list + [revision.value];
      i := i + 1;
    }
    return Some(list);
  }

  /** The revision recorded for the selected schedule. */
  method SelectedRevision(targets: seq<nat>, revisions: seq<nat>, id: nat) returns (revision: nat)
    requires |targets| == |revisions| && Distinct(targets)
    ensures forall i | 0 <= i < |targets| && targets[i] == id :: revision == revisions[i]
  {
    revision := 0;
    var i := 0;
    while i < |targets|
      invariant 0 <= i <= |targets|
      invariant forall j | 0 <= j < i && targets[j] == id :: revision == revisions[j]
    {
      if targets[i] == id {
        revision := revisions[i];
      }
      i := i + 1;
    }
  }

  /** A failure on one target is a failure of the whole update. */
  lemma {:induction false} TailFails(
    zones: Zones, s: State, id: nat, merged: Fields, patch: Patch, targets: seq<nat>, n: nat)
    requires id in s.schedules && n <= |targets|
    requires FollowingChanges(zones, s, id, merged, patch, targets[..n]).Err?
    ensures FollowingChanges(zones, s, id, merged, patch, targets) ==
      FollowingChanges(zones, s, id, merged, patch, targets[..n])
    decreases |targets|
  {
    if n == |targets| {
      assert targets[..n] == targets;
    } else {
      var t := targets[..|targets| - 1];
      assert t[..n] == targets[..n];
      TailFails(zones, s, id, merged, patch, t, n);
    }
  }

  /** A target not yet reached is as it was when the transaction began. */
  lemma NotYetReached(
    zones: Zones, s: State, id: nat, merged: Fields, patch: Patch, targets: seq<nat>, n: nat)
    requires id in s.schedules && n < |targets| && Distinct(targets) && targets[n] in s.schedules
    requires targets[n] < s.nextSchedule
    requires FollowingChanges(zones, s, id, merged, patch, targets[..n]).Ok?
    ensures var t := ApplyAll(s, FollowingChanges(zones, s, id, merged, patch, targets[..n]).value);
      targets[n] in t.schedules && t.schedules[targets[n]] == s.schedules[targets[n]]
  {
    var cs := FollowingChanges(zones, s, id, merged, patch, targets[..n]).value;
    FollowingShape(zones, s, id, merged, patch, targets[..n]);
    forall i | 0 <= i < |cs|
      ensures !cs[i].Add? && cs[i].id != targets[n]
    {
      assert FollowingChange(zones, s, id, merged, patch, targets[..n][i]) == Ok(cs[i]);
    }
    Untouched(s, cs, targets[n]);
  }

  /** The change of one more target. */
  lemma NextChange(
    zones: Zones, s: State, id: nat, merged: Fields, patch: Patch, targets: seq<nat>, n: nat)
    requires id in s.schedules && n < |targets| && targets[n] in s.schedules
    requires FollowingChanges(zones, s, id, merged, patch, targets[..n]).Ok?
    ensures var rest := FollowingChanges(zones, s, id, merged, patch, targets[..n]).value;
      var all := FollowingChanges(zones, s, id, merged, patch, targets[..n + 1]);
      match FollowingChange(zones, s, id, merged, patch, targets[n])
      case Err(error) => all == Err(error)
      case Ok(change) => all.Ok? && ApplyAll(s, all.value) == Apply(ApplyAll(s, rest), change)
  {
    assert targets[..n + 1][..n] == targets[..n];
    var change := FollowingChange(zones, s, id, merged, patch, targets[n]);
    if change.Ok? {
      var rest := FollowingChanges(zones, s, id, merged, patch, targets[..n]).value;
      assert (rest + [change.value])[..|rest|] == rest;
    }
  }

  /** The fields of one target after the patch. */
  method TargetFields(
    zones: Zones, s: State, id: nat, merged: Fields, patch: Patch, target: nat)
    returns (r: Result<Fields, Error>)
    requires id in s.schedules && target in s.schedules && Spaced(merged)
    ensures FollowingChange(zones, s, id, merged, patch, target) ==
      if r.Err? then Err(r.error) else Ok(Put(target, Edited(s.schedules[target], r.value)))
    ensures target == id ==> r == Ok(merged)
  {
    if target == id {
      return Ok(merged);
    }
    r := ShiftFollowing(
      zones, s.schedules[id].fields, merged, s.schedules[target].fields, patch);
  }

  /** The loop over the targets. */
  method RewriteTail(
    zones: Zones, s: State, id: nat, merged: Fields, patch: Patch, targets: seq<nat>)
    returns (r: Result<State, Error>)
    requires id in s.schedules && Spaced(merged) && Distinct(targets)
    requires forall i | 0 <= i < |targets| :: targets[i] in s.schedules && targets[i] < s.nextSchedule
    ensures var changes := FollowingChanges(zones, s, id, merged, patch, targets);
      r == if changes.Err? then Err(changes.error) else Ok(ApplyAll(s, changes.value))
  {
    var tx := s;
    var i := 0;
    assert targets[..0] == [];
    while i < |targets|
      invariant 0 <= i <= |targets|
      invariant FollowingChanges(zones, s, id, merged, patch, targets[..i]).Ok?
      invariant tx == ApplyAll(s, FollowingChanges(zones, s, id, merged, patch, targets[..i]).value)
    {
      NotYetReached(zones, s, id, merged, patch, targets, i);
      NextChange(zones, s, id, merged, patch, targets, i);
      var fields := TargetFields(zones, s, id, merged, patch, targets[i]);
      if fields.Err? {
        TailFails(zones, s, id, merged, patch, targets, i + 1);
        return Err(fields.error);
      }
      tx := WriteFields(tx, targets[i], fields.value);
      i := i + 1;
    }
    assert targets[..i] == targets;
    return Ok(tx);
  }

  /** The locks of a following-scope call: its targets, if all are the user's, and
      the selected schedule's revision. */
  method LockTail(s: State, user: nat, id: nat)
    returns (targets: seq<nat>, revisions: Option<seq<nat>>, selected: nat)
    requires Placed(s) && id in s.schedules && s.schedules[id].slot.Some?
    ensures targets == Later(s, s.schedules[id].slot.value) && Distinct(targets) && id in targets
    ensures revisions.Some? <==> AllOwned(s, user, targets)
    ensures revisions.Some? ==> RevisionsOf(s, targets, revisions.value)
    ensures revisions.Some? ==> selected == s.schedules[id].revision
  {
    targets := QueryTail(s, id);
    var slot := s.schedules[id].slot.value;
    TargetsDistinct(s.schedules, slot.series, slot.index, MAX_OCCURRENCES);
    TargetsAreTheTail(s, id);
    assert InTail(s, id, id);
    revisions := LockAll(s, user, targets);
    selected := 0;
    if revisions.Some? {
      selected := SelectedRevision(targets, revisions.value, id);
    }
  }

  lemma TailCommits(s: State, id: nat, cs: seq<Change>, row: Row)
    ensures Commit(s, Effect(cs, 0, None, KeepSeries, Saved(id, row))) == ApplyAll(s, cs)
  {
    ApplyAllFrame(s, cs);
    PruneNothing(ApplyAll(s, cs));
  }

  lemma SelectedIsWritten(
    zones: Zones, s: State, id: nat, merged: Fields, patch: Patch, targets: seq<nat>)
    requires id in s.schedules && id in targets && Distinct(targets)
    requires forall i | 0 <= i < |targets| :: targets[i] in s.schedules
    requires FollowingChanges(zones, s, id, merged, patch, targets).Ok?
    ensures var t := ApplyAll(s, FollowingChanges(zones, s, id, merged, patch, targets).value);
      id in t.schedules && t.schedules[id] == Edited(s.schedules[id], merged)
  {
    var cs := FollowingChanges(zones, s, id, merged, patch, targets).value;
    FollowingShape(zones, s, id, merged, patch, targets);
    forall i | 0 <= i < |cs|
      ensures cs[i].Put? && cs[i].id == targets[i]
    {
      assert FollowingChange(zones, s, id, merged, patch, targets[i]) == Ok(cs[i]);
    }
    PutsWrite(s, cs, targets);
    var i :| 0 <= i < |targets| && targets[i] == id;
    assert FollowingChange(zones, s, id, merged, patch, targets[i]) == Ok(cs[i]);
  }

  /** The selected schedule's fields after the patch, checked. */
  method MergeAndValidate(zones: Zones, before: Fields, patch: Patch)
    returns (r: Result<Fields, Error>)
    ensures r == Validated(Merge(zones, before, patch))
  {
    r := MergeSchedulePatchFields(zones, before, patch);
    if r.Ok? {
      var ok := ValidateScheduleFields(r.value);
      if !ok {
        r := Err(InvalidSchedule);
      }
    }
  }

  /** updateScheduleFollowing between its claim and its commit. */
  method UpdateTail(zones: Zones, s: State, user: nat, id: nat, patch: Patch)
    returns (r: Result<State, Error>)
    requires Placed(s)
    ensures var plan := PlanUpdateFollowing(zones, s, user, id, patch);
      match r
      case Err(error) => plan == Err(error)
      case Ok(tx) => plan.Ok? && Performs(s, plan.value, id, tx)
  {
    if !Recurring(s, user, id) {
      return Err(NotRecurring);
    }
    var targets, revisions, selected := LockTail(s, user, id);
    if |targets| == 0 || revisions.None? {
      return Err(NotFound);
    }
    if patch.expectedRevision.Some? && selected != patch.expectedRevision.value {
      return Err(RevisionConflict);
    }
    var merged := MergeAndValidate(zones, s.schedules[id].fields, patch);
    if merged.Err? {
      return Err(merged.error);
    }
    r := RewriteTail(zones, s, id, merged.value, patch, targets);
    if r.Ok? {
      SelectedIsWritten(zones, s, id, merged.value, patch, targets);
      var cs := FollowingChanges(zones, s, id, merged.value, patch, targets).value;
      TailCommits(s, id, cs, Edited(s.schedules[id], merged.value));
    }
  }

  /** UpdateSchedule. */
  method UpdateSchedule(
    zones: Zones, s: State, user: nat, key: string, id: nat, patch: Patch, hash: nat)
    returns (t: State, r: Reply)
    requires Placed(s)
    ensures t == After(zones, s, Update(user, key, id, patch, hash))
    ensures r == ReplyTo(zones, s, Update(user, key, id, patch, hash))
  {
    if patch.scope == OtherScope {
      return s, Refused(InvalidSchedule);
    }
    var c := Update(user, key, id, patch, hash);
    var claims, early := Begin(zones, s, c);
    if early.Some? {
      return s, early.value;
    }
    var tx;
    if patch.scope == Following {
      tx := UpdateTail(zones, s, user, id, patch);
    } else {
      tx := UpdateOne(zones, s, user, id, patch);
    }
    if tx.Err? {
      RolledBack(zones, s, c, tx.error);
      return s, Refused(tx.error);
    }
    Committed(zones, s, c, Plan(zones, s, c).value);
    r := Saved(id, tx.value.schedules[id]);
    t := Finish(tx.value, c, claims, r, s);
  }

  // ---------- Deletions: all rows in one statement, then their events ----------

  /** DELETE FROM schedules WHERE id IN (...). */
  method DeleteRows(s: State, ids: seq<nat>) returns (tx: State)
    ensures tx == Unannounced(s, Drops(ids), [], 0)
  {
    tx := s.(schedules := map k | k in s.schedules && k !in ids :: s.schedules[k]);
    DropsRemove(s, ids);
    DropsFrame(s, ids);
    assert tx.schedules == ApplyAll(s, Drops(ids)).schedules;
  }

  lemma {:induction false} DropsFrame(s: State, ids: seq<nat>)
    ensures SameRest(s, ApplyAll(s, Drops(ids)))
    ensures ApplyAll(s, Drops(ids)).nextSchedule == s.nextSchedule
  {
    ApplyAllFrame(s, Drops(ids));
    if ids != [] {
      assert Drops(ids)[..|ids| - 1] == Drops(ids[..|ids| - 1]);
      DropsFrame(s, ids[..|ids| - 1]);
    }
  }

  lemma DropAnnounced(s: State, user: nat, ids: seq<nat>, n: nat)
    requires n < |ids| && Distinct(ids) && AllOwned(s, user, ids)
    ensures Unannounced(s, Drops(ids), Drops(ids)[..n + 1], 0) ==
      Enqueue(
        Unannounced(s, Drops(ids), Drops(ids)[..n], 0),
        Event(ids[n], user, s.schedules[ids[n]].revision + 1, s.now, Deleted))
  {
    assert Drops(ids)[..n + 1][..n] == Drops(ids)[..n] == Drops(ids[..n]);
    assert Owned(s, user, ids[n]);
    DropsRemove(s, ids[..n]);
    DropsFrame(s, ids[..n]);
    assert ids[n] !in ids[..n];
  }

  /** enqueueDeletedEvent for each target, at the revision after its last. */
  method AnnounceDeletions(
    ghost s: State, bare: State, user: nat, ids: seq<nat>, revisions: seq<nat>)
    returns (tx: State)
    requires Distinct(ids) && AllOwned(s, user, ids) && RevisionsOf(s, ids, revisions)
    requires bare == Unannounced(s, Drops(ids), [], 0)
    ensures tx == ApplyAll(s, Drops(ids))
  {
    tx := bare;
    var i := 0;
    DropsFrame(s, ids);
    while i < |ids|
      invariant 0 <= i <= |ids|
      invariant tx == Unannounced(s, Drops(ids), Drops(ids)[..i], 0)
    {
      DropAnnounced(s, user, ids, i);
      tx := Enqueue(tx, Event(ids[i], user, revisions[i] + 1, tx.now, Deleted));
      i := i + 1;
    }
    assert Drops(ids)[..i] == Drops(ids);
  }

  lemma DropsCommit(s: State, ids: seq<nat>, prune: Prune, reply: Reply)
    ensures Commit(s, Effect(Drops(ids), 0, None, prune, reply)) ==
      PruneSeries(ApplyAll(s, Drops(ids)), prune)
  {
  }

  /** Delete the targets, write their events, prune what is left empty. */
  method RemoveAll(s: State, user: nat, ids: seq<nat>, revisions: seq<nat>, prune: Prune)
    returns (tx: State)
    requires Distinct(ids) && AllOwned(s, user, ids) && RevisionsOf(s, ids, revisions)
    ensures tx == PruneSeries(ApplyAll(s, Drops(ids)), prune)
  {
    tx := DeleteRows(s, ids);
    tx := AnnounceDeletions(s, tx, user, ids, revisions);
    tx := PruneSeries(tx, prune);
  }

  /** DeleteSchedule. */
  method DeleteSchedule(zones: Zones, s: State, user: nat, key: string, id: nat)
    returns (t: State, r: Reply)
    ensures t == After(zones, s, Delete(user, key, id))
    ensures r == ReplyTo(zones, s, Delete(user, key, id))
  {
    var c := Delete(user, key, id);
    var claims, early := Begin(zones, s, c);
    if early.Some? {
      return s, early.value;
    }
    var revision := LockRevision(s, user, id);
    if revision.None? {
      RolledBack(zones, s, c, NotFound);
      return s, Refused(NotFound);
    }
    var tx := RemoveAll(s, user, [id], [revision.value], PruneOwner(user));
    assert Drops([id]) == [Drop(id)];
    DropsCommit(s, [id], PruneOwner(user), Removed);
    Committed(zones, s, c, PlanDelete(s, user, id).value);
    t := Finish(tx, c, claims, Removed, s);
    return t, Removed;
  }

  /** DeleteScheduleFollowing between its claim and its commit. */
  method DeleteTail(s: State, user: nat, id: nat, expected: int) returns (r: Result<State, Error>)
    requires Placed(s)
    ensures var plan := PlanDeleteFollowing(s, user, id, expected);
      match r
      case Err(error) => plan == Err(error)
      case Ok(tx) => plan.Ok? && tx == Commit(s, plan.value) && plan.value.reply == Removed
  {
    if !Recurring(s, user, id) {
      return Err(NotRecurring);
    }
    var targets, revisions, selected := LockTail(s, user, id);
    if |targets| == 0 || revisions.None? {
      return Err(NotFound);
    }
    if selected != expected {
      return Err(RevisionConflict);
    }
    var prune := PruneOne(s.schedules[id].slot.value.series);
    var tx := RemoveAll(s, user, targets, revisions.value, prune);
    DropsCommit(s, targets, prune, Removed);
    return Ok(tx);
  }

  /** DeleteScheduleFollowing. */
  method DeleteScheduleFollowing(
    zones: Zones, s: State, user: nat, key: string, id: nat, expected: int, hash: nat)
    returns (t: State, r: Reply)
    requires Placed(s)
    ensures t == After(zones, s, DeleteFollowing(user, key, id, expected, hash))
    ensures r == ReplyTo(zones, s, DeleteFollowing(user, key, id, expected, hash))
  {
    var c := DeleteFollowing(user, key, id, expected, hash);
    var claims, early := Begin(zones, s, c);
    if early.Some? {
      return s, early.value;
    }
    var tx := DeleteTail(s, user, id, expected);
    if tx.Err? {
      RolledBack(zones, s, c, tx.error);
      return s, Refused(tx.error);
    }
    Committed(zones, s, c, Plan(zones, s, c).value);
    t := Finish(tx.value, c, claims, Removed, s);
    return t, Removed;
  }

  /** SELECT id FROM schedules WHERE user_id = ? AND id IN (...), each id once. */
  method QueryOwned(s: State, user: nat, ids: seq<nat>) returns (owned: seq<nat>)
    ensures Distinct(owned)
    ensures forall id: nat :: id in owned <==> id in ids && Owned(s, user, id)
  {
    var found: set<nat> := set id: nat | id in ids && Owned(s, user, id);
    owned := Enumerate<nat>(found);
  }

  ghost function Elements(s: seq<nat>): set<nat> {
    set x | x in s
  }

  lemma {:induction false} ElementCount(s: seq<nat>)
    ensures |Elements(s)| <= |s|
    ensures |Elements(s)| == |s| <==> Distinct(s)
  {
    if s != [] {
      var n := |s| - 1;
      var t := s[..n];
      ElementCount(t);
      assert s == t + [s[n]];
      assert Elements(s) == Elements(t) + {s[n]};
      assert s[n] in t ==> Elements(s) == Elements(t);
      assert forall i | 0 <= i < n :: t[i] == s[i];
      if s[n] in t {
        var i :| 0 <= i < n && t[i] == s[n];
        assert s[i] == s[n];
      }
    }
  }

  /** Counting suffices: as many owned ids were found as were asked for exactly
      if all are owned and none is listed twice. */
  lemma OwnedCount(s: State, user: nat, ids: seq<nat>, owned: seq<nat>)
    requires Distinct(owned)
    requires forall id: nat :: id in owned <==> id in ids && Owned(s, user, id)
    ensures |owned| == |ids| <==> AllOwned(s, user, ids) && Distinct(ids)
    ensures |owned| == |ids| ==> forall id: nat :: id in owned <==> id in ids
  {
    ElementCount(owned);
    ElementCount(ids);
    assert Elements(owned) <= Elements(ids);
    if Elements(owned) != Elements(ids) {
      SmallerSet(Elements(owned), Elements(ids));
      var id :| id in Elements(ids) && id !in Elements(owned);
      var i :| 0 <= i < |ids| && ids[i] == id;
      assert !Owned(s, user, ids[i]);
    } else {
      forall i | 0 <= i < |ids|
        ensures Owned(s, user, ids[i])
      {
        assert ids[i] in Elements(ids);
        assert ids[i] in Elements(owned);
      }
    }
  }

  lemma SmallerSet(a: set<nat>, b: set<nat>)
    requires a < b
    ensures |a| < |b|
  {
    assert |b| == |a| + |b - a| by { assert b == a + (b - a); }
    assert b - a != {};
  }

  lemma SortIsCanonical(a: seq<nat>, b: seq<nat>)
    requires Distinct(a) && Distinct(b) && forall id: nat :: id in a <==> id in b
    ensures Sort(a, ById) == Sort(b, ById)
  {
    SortSorts(a, ById);
    SortSorts(b, ById);
    AscendingUnique(Sort(a, ById), Sort(b, ById), ById);
  }

  /** BulkDeleteSchedules between its claim and its commit. */
  method DeleteMany(s: State, user: nat, ids: seq<nat>) returns (r: Result<State, Error>)
    ensures var plan := PlanBulkDelete(s, user, ids);
      match r
      case Err(error) => plan == Err(error)
      case Ok(tx) => plan.Ok? && tx == Commit(s, plan.value) && plan.value.reply == RemovedMany(|ids|)
  {
    var owned := QueryOwned(s, user, ids);
    OwnedCount(s, user, ids, owned);
    if |owned| != |ids| {
      return Err(NotFound);
    }
    SortIsCanonical(owned, ids);
    SortedOwned(s, user, ids);
    owned := Sort(owned, ById);
    var revisions := LockAll(s, user, owned);
    var tx := RemoveAll(s, user, owned, revisions.value, PruneOwner(user));
    DropsCommit(s, owned, PruneOwner(user), RemovedMany(|ids|));
    return Ok(tx);
  }

  /** BulkDeleteSchedules. */
  method BulkDeleteSchedules(
    zones: Zones, s: State, user: nat, key: string, ids: seq<nat>, hash: nat)
    returns (t: State, r: Reply)
    ensures t == After(zones, s, BulkDelete(user, key, ids, hash))
    ensures r == ReplyTo(zones, s, BulkDelete(user, key, ids, hash))
  {
    var c := BulkDelete(user, key, ids, hash);
    var claims, early := Begin(zones, s, c);
    if early.Some? {
      return s, early.value;
    }
    var tx := DeleteMany(s, user, ids);
    if tx.Err? {
      RolledBack(zones, s, c, tx.error);
      return s, Refused(tx.error);
    }
    Committed(zones, s, c, Plan(zones, s, c).value);
    r := RemovedMany(|ids|);
    t := Finish(tx.value, c, claims, r, s);
  }

  // ---------- Reminders ----------

  /** UPDATE schedules SET revision = revision + 1, then the event with the whole
      reminder list. */
  method WriteReminders(s: State, id: nat, reminders: seq<Reminder>) returns (t: State)
    requires id in s.schedules
    ensures var row := s.schedules[id];
      t == Apply(s, Put(id, row.(reminders := reminders, revision := row.revision + 1)))
  {
    var row := s.schedules[id].(reminders := reminders);
    row := row.(revision := row.revision + 1);
    t := s.(schedules := s.schedules[id := row]);
    t := EnqueueScheduleEvent(t, id, false);
  }

  method FindPair(reminders: seq<Reminder>, r: ReminderInput) returns (found: bool)
    ensures found == HasPair(reminders, r)
  {
    var i := 0;
    while i < |reminders|
      invariant 0 <= i <= |reminders| && !HasPair(reminders[..i], r)
    {
      if reminders[i].minutes == r.minutes && reminders[i].channel == r.channel {
        return true;
      }
      assert reminders[..i + 1] == reminders[..i] + [reminders[i]];
      i := i + 1;
    }
    assert reminders[..i] == reminders;
    return false;
  }

  method InsertReminder(s: State, user: nat, id: nat, r: ReminderInput)
    returns (t: Result<(State, Reminder), Error>)
    ensures var plan := PlanAddReminder(s, user, id, r);
      match t
      case Err(error) => plan == Err(error)
      case Ok((tx, added)) =>
        plan.Ok? && tx == Commit(s, plan.value) && plan.value.reply == ReminderAdded(added)
  {
    var revision := LockRevision(s, user, id);
    if revision.None? {
      return Err(NotFound);
    }
    var reminders := s.schedules[id].reminders;
    if |reminders| >= MAX_REMINDERS {
      return Err(ReminderLimit);
    }
    var duplicate := FindPair(reminders, r);
    if duplicate {
      return Err(DuplicateReminder);
    }
    var added := Reminder(s.nextReminder, r.minutes, r.channel);
    var tx := WriteReminders(s, id, Insert(reminders, added, Minutes));
    tx := tx.(nextReminder := s.nextReminder + 1);
    var row := s.schedules[id];
    OneChangeCommits(
      s,
      Put(id, row.(reminders := Insert(reminders, added, Minutes), revision := row.revision + 1)),
      1, ReminderAdded(added));
    return Ok((tx, added));
  }

  /** AddReminder. */
  method AddReminderTo(
    zones: Zones, s: State, user: nat, key: string, id: nat, reminder: ReminderInput, hash: nat)
    returns (t: State, r: Reply)
    ensures t == After(zones, s, AddReminder(user, key, id, reminder, hash))
    ensures r == ReplyTo(zones, s, AddReminder(user, key, id, reminder, hash))
  {
    var fault := ValidateReminderSet([reminder]);
    if fault.Some? {
      return s, Refused(fault.value);
    }
    var c := AddReminder(user, key, id, reminder, hash);
    var claims, early := Begin(zones, s, c);
    if early.Some? {
      return s, early.value;
    }
    var tx := InsertReminder(s, user, id, reminder);
    if tx.Err? {
      RolledBack(zones, s, c, tx.error);
      return s, Refused(tx.error);
    }
    Committed(zones, s, c, Plan(zones, s, c).value);
    r := ReminderAdded(tx.value.1);
    t := Finish(tx.value.0, c, claims, r, s);
  }

  method RemoveReminder(s: State, user: nat, id: nat, reminderId: nat)
    returns (r: Result<State, Error>)
    ensures var plan := PlanDeleteReminder(s, user, id, reminderId);
      match r
      case Err(error) => plan == Err(error)
      case Ok(tx) => plan.Ok? && tx == Commit(s, plan.value) && plan.value.reply == Removed
  {
    var revision := LockRevision(s, user, id);
    if revision.None? {
      return Err(NotFound);
    }
    var row := s.schedules[id];
    var kept := WithoutReminder(row.reminders, reminderId);
    if !HasReminder(row.reminders, reminderId) {
      return Err(NotFound);
    }
    var tx := WriteReminders(s, id, kept);
    OneChangeCommits(
      s, Put(id, row.(reminders := kept, revision := row.revision + 1)), 0, Removed);
    return Ok(tx);
  }

  /** DeleteReminder. */
  method DeleteReminderFrom(
    zones: Zones, s: State, user: nat, key: string, id: nat, reminderId: nat)
    returns (t: State, r: Reply)
    ensures t == After(zones, s, DeleteReminder(user, key, id, reminderId))
    ensures r == ReplyTo(zones, s, DeleteReminder(user, key, id, reminderId))
  {
    var c := DeleteReminder(user, key, id, reminderId);
    var claims, early := Begin(zones, s, c);
    if early.Some? {
      return s, early.value;
    }
    var tx := RemoveReminder(s, user, id, reminderId);
    if tx.Err? {
      RolledBack(zones, s, c, tx.error);
      return s, Refused(tx.error);
    }
    Committed(zones, s, c, Plan(zones, s, c).value);
    t := Finish(tx.value, c, claims, Removed, s);
    return t, Removed;
  }

  // ---------- The early answer to a repeated PATCH ----------

  /** ReplayScheduleUpdate. */
  method ReplayScheduleUpdate(s: State, user: nat, id: nat, key: string, hash: nat)
    returns (r: Result<Option<Reply>, Error>)
    ensures r == ReplayUpdate(s, user, id, key, hash)
  {
    if key == "" {
      return Ok(None);
    }
    var k := ClaimKey(user, UpdateOp, key);
    if k !in s.claims || s.claims[k].expiresAt <= s.now {
      return Ok(None);
    }
    var claim := s.claims[k];
    if claim.subject != id || claim.digest != OfBytes(hash) {
      return Err(IdempotencyConflict);
    }
    if id !in s.schedules || s.schedules[id].owner != user {
      return Err(NotFound);
    }
    return Ok(Some(claim.answer));
  }

  // ---------- Account erasure ----------

  /** DELETE FROM event_outbox WHERE the payload names the user OR the schedule is
      the user's. */
  method DeleteEvents(s: State, user: nat) returns (kept: seq<OutboxRow>)
    ensures kept == Unconcerned(s, user, s.outbox)
  {
    kept := [];
    var i := 0;
    while i < |s.outbox|
      invariant 0 <= i <= |s.outbox|
      invariant kept == Unconcerned(s, user, s.outbox[..i])
    {
      assert s.outbox[..i + 1][..i] == s.outbox[..i];
      if !Concerns(s, user, s.outbox[i]) {
        kept := kept + [s.outbox[i]];
      }
      i := i + 1;
    }
    assert s.outbox[..i] == s.outbox;
  }

  /** CleanupDeletedAccount, table after table. */
  method CleanupDeletedAccount(s: State, user: nat) returns (t: State)
    ensures t == Erase(s, user)
  {
    t := s.(tombstones := s.tombstones + {user});
    var kept := DeleteEvents(s, user);
    t := t.(outbox := kept);
    t := t.(claims := map k | k in t.claims && k.user != user :: t.claims[k]);
    t := t.(series := map k | k in t.series && t.series[k].owner != user :: t.series[k]);
    t := t.(aiRows := map k | k in t.aiRows && t.aiRows[k] != user :: t.aiRows[k]);
    t := t.(schedules := map k | k in t.schedules && t.schedules[k].owner != user :: t.schedules[k]);
  }
}
