/**
 The shape of the tables: reminder sets, series and their places, row numbers.
 */
module Structure {
  import opened Prelude
  import opened Patching
  import opened Ledger
  import opened Changes

  ghost predicate Seated(s: State, row: Row) {
    row.slot.Some? ==>
      var slot := row.slot.value;
      && slot.index < MAX_OCCURRENCES
      && slot.series in s.series && s.series[slot.series].owner == row.owner
  }

  /** Rows are well formed and sit in places of their owner's series, no two in
      the same place. */
  ghost predicate Placed(s: State) {
    && RowsOk(s)
    && (forall id | id in s.schedules :: id < s.nextSchedule)
    && (forall id | id in s.schedules :: Seated(s, s.schedules[id]))
    && SlotsUnique(s.schedules)
    && (forall k | k in s.series :: k < s.nextSeries)
  }

  /** Only series in the scope of `p` may be without a schedule. */
  ghost predicate Tidy(s: State, p: Prune) {
    && Placed(s)
    && forall k | k in s.series ::
         Prunable(p, k, s.series[k].owner) || !Orphan(s.schedules, k)
  }

  /** Outbox rows are numbered in ascending order. */
  ghost predicate Numbered(s: State) {
    && (forall i | 0 <= i < |s.outbox| :: s.outbox[i].id < s.nextEvent)
    && (forall i, j | 0 <= i < j < |s.outbox| :: s.outbox[i].id < s.outbox[j].id)
  }

  ghost predicate Sound(s: State) {
    Tidy(s, KeepSeries) && Numbered(s)
  }

  // ---------- One change ----------

  /** An added row takes a free place of its owner's series, and a dropped row's
      series is in the scope of the pruning to come. */
  ghost predicate Fits(s: State, p: Prune, c: Change) {
    match c
    case Add(row) =>
      && Seated(s, row)
      && (row.slot.Some? ==> forall id | id in s.schedules :: s.schedules[id].slot != row.slot)
    case Put(_, _) => true
    case Drop(id) =>
      id in s.schedules && s.schedules[id].slot.Some? ==>
        var k := s.schedules[id].slot.value.series;
        k in s.series && Prunable(p, k, s.series[k].owner)
  }

  lemma ChangePlaced(s: State, user: nat, p: Prune, c: Change)
    requires Placed(s) && Valid(s, user, c) && Fits(s, p, c)
    ensures Placed(Apply(s, c))
  {
    var t := Apply(s, c);
    forall id | id in t.schedules
      ensures id < t.nextSchedule && Seated(t, t.schedules[id])
      ensures RemindersOk(t.schedules[id].reminders)
    {
      if id in s.schedules {
        assert Seated(s, s.schedules[id]);
      }
    }
    SlotsStayUnique(s, user, p, c);
  }

  lemma SlotsStayUnique(s: State, user: nat, p: Prune, c: Change)
    requires Placed(s) && Valid(s, user, c) && Fits(s, p, c)
    ensures SlotsUnique(Apply(s, c).schedules)
  {
    var t := Apply(s, c).schedules;
    if c.Put? {
      assert forall id | id in t :: id in s.schedules && t[id].slot == s.schedules[id].slot;
    } else if c.Drop? {
      assert forall id | id in t :: id in s.schedules && t[id] == s.schedules[id];
    } else {
      assert forall id | id in t :: id != s.nextSchedule ==> id in s.schedules && t[id] == s.schedules[id];
    }
  }

  lemma ChangeOrphans(s: State, user: nat, p: Prune, c: Change, k: nat)
    requires Tidy(s, p) && Valid(s, user, c) && Fits(s, p, c) && k in s.series
    ensures Prunable(p, k, s.series[k].owner) || !Orphan(Apply(s, c).schedules, k)
  {
    if !Prunable(p, k, s.series[k].owner) {
      var id :| id in s.schedules && s.schedules[id].slot.Some? && s.schedules[id].slot.value.series == k;
      var t := Apply(s, c).schedules;
      assert id < s.nextSchedule;
      assert id in t && t[id].slot == s.schedules[id].slot;
    }
  }

  lemma ChangeTidy(s: State, user: nat, p: Prune, c: Change)
    requires Tidy(s, p) && Valid(s, user, c) && Fits(s, p, c)
    ensures Tidy(Apply(s, c), p)
  {
    ChangePlaced(s, user, p, c);
    forall k | k in s.series
      ensures Prunable(p, k, s.series[k].owner) || !Orphan(Apply(s, c).schedules, k)
    {
      ChangeOrphans(s, user, p, c, k);
    }
  }

  // ---------- The changes of one call ----------

  /** Unless a change seats a new row, it fits; drops need the owner's scope. */
  ghost predicate Plain(user: nat, p: Prune, c: Change) {
    match c
    case Add(row) => row.slot.None?
    case Put(_, _) => true
    case Drop(_) => p == PruneOwner(user)
  }

  lemma {:induction false} PlainTidy(s: State, user: nat, p: Prune, cs: seq<Change>)
    requires Tidy(s, p) && ValidAll(s, user, cs)
    requires forall i | 0 <= i < |cs| :: Plain(user, p, cs[i])
    ensures Tidy(ApplyAll(s, cs), p)
  {
    if cs != [] {
      var n := |cs| - 1;
      var t := ApplyAll(s, cs[..n]);
      PlainTidy(s, user, p, cs[..n]);
      assert Plain(user, p, cs[n]);
      assert cs[n].Drop? ==> Seated(t, t.schedules[cs[n].id]);
      ChangeTidy(t, user, p, cs[n]);
    }
  }

  /** What a list of drops leaves. */
  lemma {:induction false} DropsRemove(s: State, ids: seq<nat>)
    ensures forall id: nat ::
      id in ApplyAll(s, Drops(ids)).schedules <==> id in s.schedules && id !in ids
    ensures forall id | id in ApplyAll(s, Drops(ids)).schedules ::
      ApplyAll(s, Drops(ids)).schedules[id] == s.schedules[id]
  {
    if ids != [] {
      var n := |ids| - 1;
      DropsRemove(s, ids[..n]);
      assert Drops(ids)[..n] == Drops(ids[..n]);
      assert ids == ids[..n] + [ids[n]];
    }
  }

  lemma {:induction false} DropsTidy(s: State, user: nat, k: nat, ids: seq<nat>)
    requires Tidy(s, PruneOne(k)) && ValidAll(s, user, Drops(ids))
    requires forall i | 0 <= i < |ids| ::
      && ids[i] in s.schedules && s.schedules[ids[i]].slot.Some?
      && s.schedules[ids[i]].slot.value.series == k
    ensures Tidy(ApplyAll(s, Drops(ids)), PruneOne(k))
  {
    if ids != [] {
      var n := |ids| - 1;
      assert Drops(ids)[..n] == Drops(ids[..n]);
      DropsTidy(s, user, k, ids[..n]);
      DropsRemove(s, ids[..n]);
      var t := ApplyAll(s, Drops(ids[..n]));
      assert t.schedules[ids[n]] == s.schedules[ids[n]];
      assert Seated(t, t.schedules[ids[n]]);
      ChangeTidy(t, user, PruneOne(k), Drop(ids[n]));
    }
  }

  /** The places of a new series below `n` are taken, each by one schedule. */
  ghost predicate Filled(s: State, k: nat, n: nat) {
    && (forall id | id in s.schedules && s.schedules[id].slot.Some? ::
          s.schedules[id].slot.value.series == k ==> s.schedules[id].slot.value.index < n)
    && (n > 0 ==> !Orphan(s.schedules, k))
  }

  lemma FilledStep(s: State, k: nat, n: nat, row: Row)
    requires Placed(s) && Filled(s, k, n) && row.slot == Some(Slot(k, n))
    ensures Filled(Apply(s, Add(row)), k, n + 1)
  {
    var t := Apply(s, Add(row)).schedules;
    assert t[s.nextSchedule] == row;
  }

  lemma {:induction false} SeriesTidy(
    s: State, t: State, user: nat, i: CreateInput, os: seq<OccurrenceInput>)
    requires var k := s.nextSeries;
      Tidy(t, PruneOne(k)) && k in t.series && t.series[k].owner == user && Filled(t, k, 0)
    requires ReminderFault(i.reminders).None? && |os| <= MAX_OCCURRENCES
    ensures Tidy(ApplyAll(t, SeriesChanges(s, user, i, os)), PruneOne(s.nextSeries))
    ensures Filled(ApplyAll(t, SeriesChanges(s, user, i, os)), s.nextSeries, |os|)
  {
    if os != [] {
      var n := |os| - 1;
      var k := s.nextSeries;
      SeriesTidy(s, t, user, i, os[..n]);
      var cs := SeriesChanges(s, user, i, os[..n]);
      var row := OccurrenceRow(s, user, i, os[n], n);
      var u := ApplyAll(t, cs);
      assert SeriesChanges(s, user, i, os)[..|cs|] == cs;
      ApplyAllFrame(t, cs);
      CreatedRemindersOk(i.reminders, s.nextReminder + Used(n, |i.reminders|));
      ChangeTidy(u, user, PruneOne(k), Add(row));
      FilledStep(u, k, n, row);
    }
  }

  // ---------- Numbering ----------

  lemma {:induction false} NumberedAll(s: State, cs: seq<Change>)
    requires Numbered(s)
    ensures Numbered(ApplyAll(s, cs))
  {
    if cs != [] {
      NumberedAll(s, cs[..|cs| - 1]);
    }
  }

  // ---------- One call ----------

  /** After pruning nothing in its scope is without a schedule. */
  lemma PruneTidies(s: State, p: Prune)
    requires Tidy(s, p)
    ensures Tidy(PruneSeries(s, p), KeepSeries)
  {
    var t := PruneSeries(s, p);
    forall id | id in t.schedules
      ensures Seated(t, t.schedules[id])
    {
      assert Seated(s, s.schedules[id]);
    }
  }

  lemma TidyWiden(s: State, p: Prune)
    requires Tidy(s, KeepSeries)
    ensures Tidy(s, p)
  {
  }

  /** The tables after an effect's changes, before the pruning. */
  function Changed(s: State, e: Effect): State {
    ApplyAll(AddSeries(s, e.newSeries), e.changes)
  }

  lemma PlainTidied(s: State, user: nat, e: Effect)
    requires Tidy(s, KeepSeries) && e.newSeries.None? && ValidAll(s, user, e.changes)
    requires forall i | 0 <= i < |e.changes| :: Plain(user, e.prune, e.changes[i])
    ensures Tidy(Changed(s, e), e.prune)
  {
    TidyWiden(s, e.prune);
    PlainTidy(s, user, e.prune, e.changes);
  }

  lemma UpdateIsPlain(zones: Zones, s: State, c: Call, e: Effect)
    requires c.Update? && Fault(c).None? && Plan(zones, s, c) == Ok(e)
    ensures e.newSeries.None? && forall i | 0 <= i < |e.changes| :: Plain(c.user, e.prune, e.changes[i])
  {
    if c.patch.scope == Following {
      PutsOnly(zones, s, c);
    }
  }

  lemma OthersArePlain(zones: Zones, s: State, c: Call, e: Effect)
    requires !c.Update? && !c.CreateSeries? && !c.DeleteFollowing?
    requires Fault(c).None? && Plan(zones, s, c) == Ok(e)
    ensures e.newSeries.None? && forall i | 0 <= i < |e.changes| :: Plain(c.user, e.prune, e.changes[i])
  {
  }

  lemma DeleteTailTidied(s: State, user: nat, id: nat, expected: int, e: Effect)
    requires Tidy(s, KeepSeries) && PlanDeleteFollowing(s, user, id, expected) == Ok(e)
    requires ValidAll(s, user, e.changes)
    ensures Tidy(Changed(s, e), e.prune)
  {
    var slot := s.schedules[id].slot.value;
    TargetsHold(s.schedules, slot.series, slot.index, MAX_OCCURRENCES);
    TidyWiden(s, e.prune);
    DropsTidy(s, user, slot.series, Later(s, slot));
  }

  lemma EffectTidy(zones: Zones, s: State, c: Call, e: Effect)
    requires Fault(c).None? && Plan(zones, s, c) == Ok(e) && Tidy(s, KeepSeries)
    ensures Tidy(Changed(s, e), e.prune)
  {
    PlanIsValid(zones, s, c);
    if c.CreateSeries? {
      CreateSeriesTidy(s, c.user, c.input, c.occurrences);
    } else if c.DeleteFollowing? {
      DeleteTailTidied(s, c.user, c.id, c.expected, e);
    } else {
      if c.Update? {
        UpdateIsPlain(zones, s, c, e);
      } else {
        OthersArePlain(zones, s, c, e);
      }
      PlainTidied(s, c.user, e);
    }
  }

  lemma PutsOnly(zones: Zones, s: State, c: Call)
    requires c.Update? && c.patch.scope == Following && Plan(zones, s, c).Ok?
    ensures forall i | 0 <= i < |Plan(zones, s, c).value.changes| ::
      Plan(zones, s, c).value.changes[i].Put?
  {
    var row := s.schedules[c.id];
    var merged := Validated(Merge(zones, row.fields, c.patch)).value;
    FollowingShape(zones, s, c.id, merged, c.patch, Later(s, row.slot.value));
  }

  lemma CreateSeriesTidy(s: State, user: nat, i: CreateInput, os: seq<OccurrenceInput>)
    requires Tidy(s, KeepSeries) && i.recurrence.Some? && 0 < |os| <= MAX_OCCURRENCES
    requires ReminderFault(i.reminders).None?
    ensures var e := PlanCreateSeries(s, user, i, os);
      Tidy(Changed(s, e), KeepSeries)
  {
    var e := PlanCreateSeries(s, user, i, os);
    var t := AddSeries(s, e.newSeries);
    forall id | id in t.schedules
      ensures Seated(t, t.schedules[id])
    {
      assert Seated(s, s.schedules[id]);
    }
    SeriesTidy(s, t, user, i, os);
  }

  lemma EffectSound(s: State, e: Effect)
    requires Numbered(s) && Tidy(Changed(s, e), e.prune)
    ensures Sound(Commit(s, e))
  {
    NumberedAll(AddSeries(s, e.newSeries), e.changes);
    var s1 := Changed(s, e);
    TidyAside(s1, e.prune, s1.nextReminder + e.remindersUsed);
    PruneTidies(s1.(nextReminder := s1.nextReminder + e.remindersUsed), e.prune);
  }

  lemma TidyAside(s: State, p: Prune, next: nat)
    requires Tidy(s, p)
    ensures Tidy(s.(nextReminder := next), p)
  {
    var t := s.(nextReminder := next);
    forall id | id in t.schedules
      ensures Seated(t, t.schedules[id])
    {
      assert Seated(s, s.schedules[id]);
    }
  }

  /** Every call keeps the tables in shape. */
  lemma CommitSound(zones: Zones, s: State, c: Call, e: Effect)
    requires Fault(c).None? && Plan(zones, s, c) == Ok(e) && Sound(s)
    ensures Sound(Commit(s, e))
  {
    EffectTidy(zones, s, c, e);
    EffectSound(s, e);
  }

  lemma {:induction false} UnconcernedNumbered(s: State, user: nat, outbox: seq<OutboxRow>)
    requires forall i, j | 0 <= i < j < |outbox| :: outbox[i].id < outbox[j].id
    ensures forall o | o in Unconcerned(s, user, outbox) :: o in outbox
    ensures forall i, j | 0 <= i < j < |Unconcerned(s, user, outbox)| ::
      Unconcerned(s, user, outbox)[i].id < Unconcerned(s, user, outbox)[j].id
  {
    if outbox != [] {
      var n := |outbox| - 1;
      UnconcernedNumbered(s, user, outbox[..n]);
      var kept := Unconcerned(s, user, outbox[..n]);
      forall i | 0 <= i < |kept|
        ensures kept[i].id < outbox[n].id
      {
        assert kept[i] in outbox[..n];
      }
    }
  }

  /** So does erasing an account. */
  lemma EraseSound(s: State, user: nat)
    requires Sound(s)
    ensures Sound(Erase(s, user))
  {
    UnconcernedNumbered(s, user, s.outbox);
    var t := Erase(s, user);
    forall i | 0 <= i < |t.outbox|
      ensures t.outbox[i].id < t.nextEvent
    {
      assert t.outbox[i] in s.outbox;
    }
    forall id | id in t.schedules
      ensures Seated(t, t.schedules[id])
    {
      assert Seated(s, s.schedules[id]);
    }
    forall k | k in t.series
      ensures !Orphan(t.schedules, k)
    {
      var id :| id in s.schedules && s.schedules[id].slot.Some? && s.schedules[id].slot.value.series == k;
      assert Seated(s, s.schedules[id]);
      assert id in t.schedules;
    }
  }
}
