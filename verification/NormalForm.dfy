/**
 Time normal form over whole runs: rows leave it only if a creation puts them
 outside it.
 */
module NormalForm {
  import opened Prelude
  import opened Patching
  import opened Ledger
  import opened Changes
  import Creation

  ghost predicate AllNormal(zones: Zones, s: State) {
    forall id | id in s.schedules :: Normal(zones, s.schedules[id].fields)
  }

  /** The fields a single creation stores. */
  function CreatedFields(input: CreateInput): Fields {
    NewRow(0, Defaulted(input), 0).fields
  }

  /** The fields of one occurrence of a new series. */
  function OccurrenceFields(i: CreateInput, o: OccurrenceInput): Fields {
    NewRow(0, i, 0).fields.(
      startAt := o.startAt, endAt := o.endAt, allDay := o.allDay,
      startDate := StoredDate(o.startDate), endDate := StoredDate(o.endDate),
      status := if i.status == "" then "confirmed" else i.status)
  }

  /** A creation brings normal times; other actions bring none. */
  ghost predicate BringsNormal(zones: Zones, a: Action) {
    a.Do? ==>
      match a.call
      case Create(_, _, input) => Normal(zones, CreatedFields(input))
      case CreateSeries(_, _, input, os) =>
        forall n | 0 <= n < |os| :: Normal(zones, OccurrenceFields(input, os[n]))
      case _ => true
  }

  ghost predicate NormalChange(zones: Zones, c: Change) {
    !c.Drop? ==> Normal(zones, c.row.fields)
  }

  ghost predicate NormalChanges(zones: Zones, cs: seq<Change>) {
    forall i | 0 <= i < |cs| :: NormalChange(zones, cs[i])
  }

  lemma {:induction false} ChangesKeepNormal(zones: Zones, s: State, cs: seq<Change>)
    requires AllNormal(zones, s) && NormalChanges(zones, cs)
    ensures AllNormal(zones, ApplyAll(s, cs))
  {
    if cs != [] {
      var n := |cs| - 1;
      ChangesKeepNormal(zones, s, cs[..n]);
      assert NormalChange(zones, cs[n]);
    }
  }

  lemma {:induction false} SeriesChangesNormal(
    zones: Zones, s: State, user: nat, i: CreateInput, os: seq<OccurrenceInput>)
    requires forall n | 0 <= n < |os| :: Normal(zones, OccurrenceFields(i, os[n]))
    ensures NormalChanges(zones, SeriesChanges(s, user, i, os))
  {
    if os != [] {
      var n := |os| - 1;
      SeriesChangesNormal(zones, s, user, i, os[..n]);
      assert OccurrenceRow(s, user, i, os[n], n).fields == OccurrenceFields(i, os[n]);
      assert NormalChange(zones, Add(OccurrenceRow(s, user, i, os[n], n)));
    }
  }

  lemma FollowingNormal(
    zones: Zones, s: State, id: nat, merged: Fields, patch: Patch, targets: seq<nat>)
    requires id in s.schedules && Normal(zones, merged)
    requires FollowingChanges(zones, s, id, merged, patch, targets).Ok?
    ensures NormalChanges(zones, FollowingChanges(zones, s, id, merged, patch, targets).value)
  {
    var cs := FollowingChanges(zones, s, id, merged, patch, targets).value;
    FollowingShape(zones, s, id, merged, patch, targets);
    forall i | 0 <= i < |cs|
      ensures NormalChange(zones, cs[i])
    {
      OneFollowingNormal(zones, s, id, merged, patch, targets[i], cs[i]);
    }
  }

  lemma OneFollowingNormal(
    zones: Zones, s: State, id: nat, merged: Fields, patch: Patch, target: nat, c: Change)
    requires id in s.schedules && target in s.schedules && Normal(zones, merged)
    requires FollowingChange(zones, s, id, merged, patch, target) == Ok(c)
    ensures NormalChange(zones, c)
  {
    if target != id {
      FollowingIsNormal(
        zones, s.schedules[id].fields, merged, s.schedules[target].fields, patch);
    }
  }

  lemma UpdateNormal(zones: Zones, s: State, c: Call)
    requires c.Update? && Fault(c).None? && Plan(zones, s, c).Ok?
    ensures NormalChanges(zones, Plan(zones, s, c).value.changes)
  {
    MergeIsNormal(zones, s.schedules[c.id].fields, c.patch);
    if c.patch.scope == Following {
      var merged := Validated(Merge(zones, s.schedules[c.id].fields, c.patch)).value;
      FollowingNormal(
        zones, s, c.id, merged, c.patch, Later(s, s.schedules[c.id].slot.value));
    }
  }

  lemma ReminderNormal(zones: Zones, s: State, c: Call)
    requires (c.AddReminder? || c.DeleteReminder?) && Fault(c).None? && Plan(zones, s, c).Ok?
    requires AllNormal(zones, s)
    ensures NormalChanges(zones, Plan(zones, s, c).value.changes)
  {
  }

  /** Every change a call makes writes a row in normal form, if its creations do. */
  lemma PlanNormal(zones: Zones, s: State, c: Call)
    requires Fault(c).None? && Plan(zones, s, c).Ok?
    requires AllNormal(zones, s) && BringsNormal(zones, Do(c))
    ensures NormalChanges(zones, Plan(zones, s, c).value.changes)
  {
    match c
    case Create(user, _, input) =>
      assert NewRow(user, Defaulted(input), s.nextReminder).fields == CreatedFields(input);
    case CreateSeries(user, _, input, os) => SeriesChangesNormal(zones, s, user, input, os);
    case Update(_, _, _, _, _) => UpdateNormal(zones, s, c);
    case AddReminder(_, _, _, _, _) => ReminderNormal(zones, s, c);
    case DeleteReminder(_, _, _, _) => ReminderNormal(zones, s, c);
    case _ =>
  }

  lemma ActNormal(zones: Zones, s: State, a: Action)
    requires AllNormal(zones, s) && BringsNormal(zones, a)
    ensures AllNormal(zones, Act(zones, s, a))
  {
    if a.Do? && Judge(zones, s, a.call).Applied? {
      var e := Judge(zones, s, a.call).effect;
      PlanNormal(zones, s, a.call);
      ChangesKeepNormal(zones, AddSeries(s, e.newSeries), e.changes);
    }
  }

  /** If every creation of a run brings normal times, every row is in normal form in
      every state of the run. */
  lemma {:induction false} RowsStayNormal(zones: Zones, actions: seq<Action>)
    requires forall i | 0 <= i < |actions| :: BringsNormal(zones, actions[i])
    ensures AllNormal(zones, Run(zones, Empty(), actions))
  {
    if actions != [] {
      var n := |actions| - 1;
      var prior := actions[..n];
      assert forall i | 0 <= i < n :: prior[i] == actions[i];
      RowsStayNormal(zones, prior);
      ActNormal(zones, Run(zones, Empty(), prior), actions[n]);
    }
  }

  /** The converse for one creation: what it brings outside normal form is stored
      that way. */
  lemma AbnormalIsStored(zones: Zones, s: State, c: Call)
    requires c.Create? && Judge(zones, s, c).Applied? && !BringsNormal(zones, Do(c))
    ensures !AllNormal(zones, After(zones, s, c))
  {
    var row := NewRow(c.user, Defaulted(c.input), s.nextReminder);
    var cs := [Add(row)];
    assert cs[..0] == [];
    assert ApplyAll(s, cs[..0]) == s;
    var t := After(zones, s, c);
    assert s.nextSchedule in t.schedules && t.schedules[s.nextSchedule] == row;
    assert row.fields == CreatedFields(c.input);
  }

  /** The request handler's creations: accepted times at least a millisecond long, in
      a known zone whose days begin in order, are normal exactly if they are not an
      all-day request given by local times. */
  lemma HandlerBringsNormal(zones: Zones, i: Creation.TimeInput, t: Creation.Times, f: Fields)
    requires Creation.Acceptable(i) && Creation.Yields(i, t)
    requires zones(f.timezone).Some? && i.zone == zones(f.timezone)
    requires Creation.DaysAscend(i.zone.value)
    requires f == f.(
      startAt := t.startAt, endAt := t.endAt, startDate := t.startDate, endDate := t.endDate,
      allDay := i.allDay)
    requires Spaced(f)
    ensures Normal(zones, f) <==> !(i.allDay && Creation.UsesLocal(i))
  {
    Creation.NormalUnlessAllDayByLocalTime(i, t);
  }
}
