/**
 Every committed effect is a list of valid changes, made by the calling user to
 rows of their own.  All invariants of the ledger rest on this.
 */
module Changes {
  import opened Prelude
  import opened Patching
  import opened Ledger

  // ---------- Reminders ----------

  ghost predicate ReminderOk(r: Reminder) {
    0 <= r.minutes <= MAX_REMINDER_MINUTES && r.channel == "telegram"
  }

  /** At most five reminders, in range, listed by offset, no offset twice. */
  ghost predicate RemindersOk(rs: seq<Reminder>) {
    && |rs| <= MAX_REMINDERS && Ascending(rs, Minutes)
    && forall r | r in rs :: ReminderOk(r)
  }

  ghost predicate InputOk(r: ReminderInput) {
    0 <= r.minutes <= MAX_REMINDER_MINUTES && r.channel == "telegram"
  }

  /** validateReminderSet accepts exactly the small, valid, duplicate-free lists. */
  lemma {:induction false} ScanIsExact(rs: seq<ReminderInput>)
    ensures ReminderScan(rs).None? <==>
      Distinct(rs) && forall i | 0 <= i < |rs| :: InputOk(rs[i])
  {
    if rs != [] {
      var t := rs[..|rs| - 1];
      ScanIsExact(t);
      assert rs == t + [rs[|rs| - 1]];
      assert rs[|rs| - 1] in t <==> exists i :: 0 <= i < |t| && t[i] == rs[|rs| - 1];
      if Distinct(rs) {
        assert forall i | 0 <= i < |t| :: rs[i] == t[i];
      }
    }
  }

  lemma {:induction false} NewRemindersFrom(rs: seq<ReminderInput>, base: nat, r: Reminder)
    requires r in NewReminders(rs, base)
    ensures ReminderInput(r.minutes, r.channel) in rs
  {
    var n := |rs| - 1;
    var last := Reminder(base + n, rs[n].minutes, rs[n].channel);
    InsertElements(NewReminders(rs[..n], base), last, Minutes);
    if r != last {
      NewRemindersFrom(rs[..n], base, r);
    }
  }

  lemma {:induction false} NewRemindersAscend(rs: seq<ReminderInput>, base: nat)
    requires Distinct(rs) && forall i | 0 <= i < |rs| :: InputOk(rs[i])
    ensures |NewReminders(rs, base)| == |rs| && Ascending(NewReminders(rs, base), Minutes)
  {
    if rs != [] {
      var n := |rs| - 1;
      var t, last := rs[..n], rs[n];
      NewRemindersAscend(t, base);
      var added := Reminder(base + n, last.minutes, last.channel);
      forall r | r in NewReminders(t, base)
        ensures r.minutes != last.minutes
      {
        NewRemindersFrom(t, base, r);
        var i :| 0 <= i < n && t[i] == ReminderInput(r.minutes, r.channel);
        assert rs[i] != rs[n];
      }
      InsertElements(NewReminders(t, base), added, Minutes);
      InsertSorts(NewReminders(t, base), added, Minutes);
    }
  }

  lemma CreatedRemindersOk(rs: seq<ReminderInput>, base: nat)
    requires ReminderFault(rs).None?
    ensures RemindersOk(NewReminders(rs, base))
  {
    ScanIsExact(rs);
    NewRemindersAscend(rs, base);
    forall r | r in NewReminders(rs, base)
      ensures ReminderOk(r)
    {
      NewRemindersFrom(rs, base, r);
      var i :| 0 <= i < |rs| && rs[i] == ReminderInput(r.minutes, r.channel);
    }
  }

  lemma AddedReminderOk(rs: seq<Reminder>, r: ReminderInput, id: nat)
    requires RemindersOk(rs) && |rs| < MAX_REMINDERS && !HasPair(rs, r)
    requires ReminderFault([r]).None?
    ensures RemindersOk(Insert(rs, Reminder(id, r.minutes, r.channel), Minutes))
  {
    ScanIsExact([r]);
    assert InputOk([r][0]);
    forall x | x in rs
      ensures x.minutes != r.minutes
    {
      assert ReminderOk(x);
    }
    InsertElements(rs, Reminder(id, r.minutes, r.channel), Minutes);
    InsertSorts(rs, Reminder(id, r.minutes, r.channel), Minutes);
  }

  lemma {:induction false} RemovedReminders(rs: seq<Reminder>, id: nat, r: Reminder)
    ensures r in WithoutReminder(rs, id) <==> r in rs && r.id != id
  {
    if rs != [] {
      RemovedReminders(rs[1..], id, r);
      assert rs == [rs[0]] + rs[1..];
    }
  }

  lemma LaterThanFirst(rs: seq<Reminder>, r: Reminder)
    requires Ascending(rs, Minutes) && rs != [] && r in rs[1..]
    ensures rs[0].minutes < r.minutes
  {
    var j :| 0 <= j < |rs[1..]| && rs[1..][j] == r;
    assert Minutes(rs[0]) < Minutes(rs[j + 1]);
  }

  lemma PrependAscends(r: Reminder, rs: seq<Reminder>)
    requires Ascending(rs, Minutes) && forall k | 0 <= k < |rs| :: r.minutes < rs[k].minutes
    ensures Ascending([r] + rs, Minutes)
  {
  }

  lemma {:induction false} RemovedReminderOk(rs: seq<Reminder>, id: nat)
    requires Ascending(rs, Minutes)
    ensures |WithoutReminder(rs, id)| <= |rs| && Ascending(WithoutReminder(rs, id), Minutes)
  {
    if rs != [] {
      var rest := WithoutReminder(rs[1..], id);
      RemovedReminderOk(rs[1..], id);
      forall k | 0 <= k < |rest|
        ensures rs[0].minutes < rest[k].minutes
      {
        RemovedReminders(rs[1..], id, rest[k]);
        LaterThanFirst(rs, rest[k]);
      }
      PrependAscends(rs[0], rest);
      assert [] + rest == rest;
    }
  }

  lemma KeptRemindersOk(rs: seq<Reminder>, id: nat)
    requires RemindersOk(rs)
    ensures RemindersOk(WithoutReminder(rs, id))
  {
    RemovedReminderOk(rs, id);
    forall r | r in WithoutReminder(rs, id)
      ensures ReminderOk(r)
    {
      RemovedReminders(rs, id, r);
    }
  }

  // ---------- Valid changes ----------

  ghost predicate Valid(s: State, user: nat, c: Change) {
    match c
    case Add(row) => row.owner == user && row.revision == 1 && RemindersOk(row.reminders)
    case Put(id, row) =>
      && Owned(s, user, id) && RemindersOk(row.reminders)
      && row == s.schedules[id].(
           fields := row.fields, reminders := row.reminders,
           revision := s.schedules[id].revision + 1)
    case Drop(id) => Owned(s, user, id)
  }

  ghost predicate ValidAll(s: State, user: nat, cs: seq<Change>) {
    cs == [] ||
    (ValidAll(s, user, cs[..|cs| - 1]) &&
     Valid(ApplyAll(s, cs[..|cs| - 1]), user, cs[|cs| - 1]))
  }

  /** Everything a change leaves alone. */
  ghost predicate SameRest(s: State, t: State) {
    && t.series == s.series && t.claims == s.claims && t.tombstones == s.tombstones
    && t.aiRows == s.aiRows && t.now == s.now && t.nextSeries == s.nextSeries
    && t.nextReminder == s.nextReminder && t.nextAi == s.nextAi
  }

  lemma {:induction false} ApplyAllFrame(s: State, cs: seq<Change>)
    ensures SameRest(s, ApplyAll(s, cs))
    ensures s.nextSchedule <= ApplyAll(s, cs).nextSchedule
    ensures s.nextEvent <= ApplyAll(s, cs).nextEvent
    ensures s.outbox <= ApplyAll(s, cs).outbox
  {
    if cs != [] {
      ApplyAllFrame(s, cs[..|cs| - 1]);
    }
  }

  ghost predicate RowsOk(s: State) {
    forall id | id in s.schedules :: RemindersOk(s.schedules[id].reminders)
  }

  /** A change to another schedule leaves this one as it is. */
  lemma {:induction false} Untouched(s: State, cs: seq<Change>, id: nat)
    requires id in s.schedules && id < s.nextSchedule
    requires forall i | 0 <= i < |cs| :: !cs[i].Add? && cs[i].id != id
    ensures id in ApplyAll(s, cs).schedules && ApplyAll(s, cs).schedules[id] == s.schedules[id]
  {
    if cs != [] {
      var t := cs[..|cs| - 1];
      assert forall i | 0 <= i < |t| :: t[i] == cs[i];
      Untouched(s, t, id);
    }
  }

  // ---------- Each plan yields valid changes ----------

  lemma OneChange(s: State, user: nat, c: Change)
    requires Valid(s, user, c)
    ensures ValidAll(s, user, [c])
  {
    assert [c][..0] == [];
    assert ApplyAll(s, [c][..0]) == s;
    assert ValidAll(s, user, [c][..0]);
  }

  lemma OccurrenceValid(
    s: State, t: State, user: nat, i: CreateInput, o: OccurrenceInput, n: nat)
    requires ReminderFault(i.reminders).None?
    ensures Valid(t, user, Add(OccurrenceRow(s, user, i, o, n)))
  {
    CreatedRemindersOk(i.reminders, s.nextReminder + Used(n, |i.reminders|));
  }

  lemma OneMoreValid(s: State, user: nat, cs: seq<Change>, c: Change)
    requires ValidAll(s, user, cs) && Valid(ApplyAll(s, cs), user, c)
    ensures ValidAll(s, user, cs + [c])
  {
    assert (cs + [c])[..|cs|] == cs;
  }

  lemma {:induction false} SeriesChangesValid(
    s: State, t: State, user: nat, i: CreateInput, os: seq<OccurrenceInput>)
    requires ReminderFault(i.reminders).None?
    ensures ValidAll(t, user, SeriesChanges(s, user, i, os))
  {
    if os != [] {
      var n := |os| - 1;
      var cs := SeriesChanges(s, user, i, os[..n]);
      SeriesChangesValid(s, t, user, i, os[..n]);
      OccurrenceValid(s, ApplyAll(t, cs), user, i, os[n], n);
      OneMoreValid(t, user, cs, Add(OccurrenceRow(s, user, i, os[n], n)));
    }
  }

  /** Changes that edit or drop distinct schedules stay valid one after another. */
  lemma {:induction false} DistinctChangesValid(
    s: State, user: nat, cs: seq<Change>, targets: seq<nat>)
    requires |cs| == |targets| && Distinct(targets)
    requires forall i | 0 <= i < |cs| :: !cs[i].Add? && cs[i].id == targets[i]
    requires forall i | 0 <= i < |cs| :: Valid(s, user, cs[i])
    requires forall id | id in s.schedules :: id < s.nextSchedule
    ensures ValidAll(s, user, cs)
  {
    if cs != [] {
      var n := |cs| - 1;
      var t := cs[..n];
      assert forall i | 0 <= i < n :: t[i] == cs[i];
      DistinctChangesValid(s, user, t, targets[..n]);
      assert Valid(s, user, cs[n]);
      forall i | 0 <= i < n
        ensures t[i].id != cs[n].id
      {
        assert targets[i] != targets[n];
      }
      Untouched(s, t, cs[n].id);
    }
  }

  // ---------- Targets ----------

  /** The targets hold their series' places, in ascending order of index. */
  lemma {:induction false} TargetsHold(schedules: map<nat, Row>, series: nat, from: nat, to: nat)
    ensures forall i | 0 <= i < |Targets(schedules, series, from, to)| ::
      var id := Targets(schedules, series, from, to)[i];
      && id in schedules && schedules[id].slot.Some? && schedules[id].slot.value.series == series
      && from <= schedules[id].slot.value.index < to
    ensures forall i, j | 0 <= i < j < |Targets(schedules, series, from, to)| ::
      var a, b := Targets(schedules, series, from, to)[i], Targets(schedules, series, from, to)[j];
      && a in schedules && b in schedules && schedules[a].slot.Some? && schedules[b].slot.Some?
      && schedules[a].slot.value.index < schedules[b].slot.value.index
  {
    if from < to {
      TargetsHold(schedules, series, from, to - 1);
    }
  }

  lemma TargetsDistinct(schedules: map<nat, Row>, series: nat, from: nat, to: nat)
    ensures Distinct(Targets(schedules, series, from, to))
  {
    TargetsHold(schedules, series, from, to);
  }

  /** Places in a series are held by one schedule each. */
  ghost predicate SlotsUnique(schedules: map<nat, Row>) {
    forall a, b |
      a in schedules && b in schedules && schedules[a].slot.Some? &&
      schedules[a].slot == schedules[b].slot :: a == b
  }

  /** No schedule of the series in that index range is missing. */
  lemma {:induction false} TargetsComplete(
    schedules: map<nat, Row>, series: nat, from: nat, to: nat, id: nat)
    requires SlotsUnique(schedules)
    requires id in schedules && schedules[id].slot.Some?
    requires schedules[id].slot.value.series == series
    requires from <= schedules[id].slot.value.index < to
    ensures id in Targets(schedules, series, from, to)
  {
    if schedules[id].slot.value.index < to - 1 {
      TargetsComplete(schedules, series, from, to - 1, id);
    } else {
      assert schedules[id].slot == Some(Slot(series, to - 1));
    }
  }

  lemma {:induction false} FollowingShape(
    zones: Zones, s: State, id: nat, merged: Fields, patch: Patch, targets: seq<nat>)
    requires id in s.schedules && FollowingChanges(zones, s, id, merged, patch, targets).Ok?
    ensures var cs := FollowingChanges(zones, s, id, merged, patch, targets).value;
      && |cs| == |targets|
      && forall i | 0 <= i < |cs| ::
           && targets[i] in s.schedules
           && FollowingChange(zones, s, id, merged, patch, targets[i]) == Ok(cs[i])
  {
    if targets != [] {
      var n := |targets| - 1;
      FollowingShape(zones, s, id, merged, patch, targets[..n]);
    }
  }

  lemma FollowingValid(
    zones: Zones, s: State, user: nat, id: nat, merged: Fields, patch: Patch, targets: seq<nat>)
    requires id in s.schedules && RowsOk(s) && AllOwned(s, user, targets) && Distinct(targets)
    requires forall k | k in s.schedules :: k < s.nextSchedule
    requires FollowingChanges(zones, s, id, merged, patch, targets).Ok?
    ensures ValidAll(s, user, FollowingChanges(zones, s, id, merged, patch, targets).value)
  {
    var cs := FollowingChanges(zones, s, id, merged, patch, targets).value;
    FollowingShape(zones, s, id, merged, patch, targets);
    forall i | 0 <= i < |cs|
      ensures !cs[i].Add? && cs[i].id == targets[i] && Valid(s, user, cs[i])
    {
      assert Owned(s, user, targets[i]);
      assert FollowingChange(zones, s, id, merged, patch, targets[i]) == Ok(cs[i]);
    }
    DistinctChangesValid(s, user, cs, targets);
  }

  lemma DropsValid(s: State, user: nat, ids: seq<nat>)
    requires AllOwned(s, user, ids) && Distinct(ids)
    requires forall k | k in s.schedules :: k < s.nextSchedule
    ensures ValidAll(s, user, Drops(ids))
  {
    DistinctChangesValid(s, user, Drops(ids), ids);
  }

  lemma SortedOwned(s: State, user: nat, ids: seq<nat>)
    requires AllOwned(s, user, ids) && Distinct(ids)
    ensures AllOwned(s, user, Sort(ids, ById)) && Distinct(Sort(ids, ById))
    ensures forall id: nat :: id in Sort(ids, ById) <==> id in ids
  {
    SortSorts(ids, ById);
    var sorted := Sort(ids, ById);
    forall i | 0 <= i < |sorted|
      ensures Owned(s, user, sorted[i])
    {
      assert sorted[i] in ids;
    }
    forall i, j | 0 <= i < j < |sorted|
      ensures sorted[i] != sorted[j]
    {
      assert ById(sorted[i]) < ById(sorted[j]);
    }
  }

  lemma EditValid(s: State, user: nat, id: nat, fields: Fields)
    requires Owned(s, user, id) && RowsOk(s)
    ensures Valid(s, user, Put(id, Edited(s.schedules[id], fields)))
  {
  }

  /** The main fact: whatever a call commits is a list of valid changes. */
  lemma PlanIsValid(zones: Zones, s: State, c: Call)
    requires Fault(c).None? && Plan(zones, s, c).Ok? && RowsOk(s)
    requires forall k | k in s.schedules :: k < s.nextSchedule
    ensures var e := Plan(zones, s, c).value;
      ValidAll(AddSeries(s, e.newSeries), c.user, e.changes)
  {
    match c
    case Create(user, _, input) =>
      CreatedRemindersOk(input.reminders, s.nextReminder);
      OneChange(s, user, Add(NewRow(user, Defaulted(input), s.nextReminder)));
    case CreateSeries(user, _, input, os) =>
      SeriesChangesValid(
        s, AddSeries(s, PlanCreateSeries(s, user, input, os).newSeries), user, input, os);
    case Update(user, _, id, patch, _) =>
      if patch.scope == Following {
        FollowingPlanValid(zones, s, user, id, patch);
      } else {
        var f := Validated(Merge(zones, s.schedules[id].fields, patch)).value;
        EditValid(s, user, id, f);
        OneChange(s, user, Put(id, Edited(s.schedules[id], f)));
      }
    case Delete(user, _, id) => OneChange(s, user, Drop(id));
    case DeleteFollowing(user, _, id, _, _) =>
      var slot := s.schedules[id].slot.value;
      TargetsDistinct(s.schedules, slot.series, slot.index, MAX_OCCURRENCES);
      DropsValid(s, user, Later(s, slot));
    case BulkDelete(user, _, ids, _) =>
      SortedOwned(s, user, ids);
      DropsValid(s, user, Sort(ids, ById));
    case AddReminder(user, _, id, r, _) =>
      AddedReminderOk(s.schedules[id].reminders, r, s.nextReminder);
      OneChange(s, user, PlanAddReminder(s, user, id, r).value.changes[0]);
    case DeleteReminder(user, _, id, reminderId) =>
      KeptRemindersOk(s.schedules[id].reminders, reminderId);
      OneChange(s, user, PlanDeleteReminder(s, user, id, reminderId).value.changes[0]);
  }

  lemma FollowingPlanValid(zones: Zones, s: State, user: nat, id: nat, patch: Patch)
    requires PlanUpdateFollowing(zones, s, user, id, patch).Ok? && RowsOk(s)
    requires forall k | k in s.schedules :: k < s.nextSchedule
    ensures ValidAll(s, user, PlanUpdateFollowing(zones, s, user, id, patch).value.changes)
  {
    var slot := s.schedules[id].slot.value;
    TargetsDistinct(s.schedules, slot.series, slot.index, MAX_OCCURRENCES);
    var merged := Validated(Merge(zones, s.schedules[id].fields, patch)).value;
    FollowingValid(zones, s, user, id, merged, patch, Later(s, slot));
  }
}
