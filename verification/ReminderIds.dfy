/**
 Reminder numbers over whole runs: within a schedule no two reminders share one, so
 deleting a reminder removes exactly one.
 */
module ReminderIds {
  import opened Prelude
  import opened Patching
  import opened Ledger
  import opened Changes
  import opened Structure
  import opened Runs
  import opened Claims
  import opened CallEffect

  /** Every schedule's reminders carry different numbers, all below `bound`. */
  ghost predicate AllNumbered(s: State, bound: nat) {
    forall id | id in s.schedules :: NumberedFrom(s.schedules[id].reminders, 0, bound)
  }

  ghost predicate NumberedChanges(cs: seq<Change>, bound: nat) {
    forall i | 0 <= i < |cs| && !cs[i].Drop? :: NumberedFrom(cs[i].row.reminders, 0, bound)
  }

  lemma {:induction false} ChangesNumbered(s: State, cs: seq<Change>, bound: nat)
    requires AllNumbered(s, bound) && NumberedChanges(cs, bound)
    ensures AllNumbered(ApplyAll(s, cs), bound)
  {
    if cs != [] {
      ChangesNumbered(s, cs[..|cs| - 1], bound);
    }
  }

  lemma Widened(list: seq<Reminder>, base: nat, bound: nat, wider: nat)
    requires NumberedFrom(list, base, bound) && bound <= wider
    ensures NumberedFrom(list, 0, wider)
  {
  }

  lemma AllWidened(s: State, bound: nat, wider: nat)
    requires AllNumbered(s, bound) && bound <= wider
    ensures AllNumbered(s, wider)
  {
    forall id | id in s.schedules
      ensures NumberedFrom(s.schedules[id].reminders, 0, wider)
    {
      Widened(s.schedules[id].reminders, 0, bound, wider);
    }
  }

  lemma {:induction false} SeriesNumbered(
    s: State, user: nat, i: CreateInput, os: seq<OccurrenceInput>)
    ensures NumberedChanges(
      SeriesChanges(s, user, i, os), s.nextReminder + Used(|os|, |i.reminders|))
  {
    if os != [] {
      var n := |os| - 1;
      var each := |i.reminders|;
      SeriesNumbered(s, user, i, os[..n]);
      var cs, bound := SeriesChanges(s, user, i, os[..n]), s.nextReminder + Used(n, each);
      forall k | 0 <= k < |cs| && !cs[k].Drop?
        ensures NumberedFrom(cs[k].row.reminders, 0, bound + each)
      {
        Widened(cs[k].row.reminders, 0, bound, bound + each);
      }
      NewRemindersNumbered(i.reminders, bound);
      Widened(NewReminders(i.reminders, bound), bound, bound + each, bound + each);
    }
  }

  lemma {:induction false} LosesNumbered(before: seq<Reminder>, id: nat, after: seq<Reminder>, bound: nat)
    requires Loses(before, id, after) && NumberedFrom(before, 0, bound)
    ensures NumberedFrom(after, 0, bound) && forall r | r in after :: r in before
  {
    if before != [] {
      var rest := before[1..];
      assert forall i | 0 <= i < |rest| :: rest[i] == before[i + 1];
      if before[0].id == id {
        LosesNumbered(rest, id, after, bound);
      } else {
        LosesNumbered(rest, id, after[1..], bound);
        forall i | 0 <= i < |after[1..]|
          ensures after[1..][i].id != before[0].id
        {
          assert after[1..][i] in rest;
          var j :| 0 <= j < |rest| && rest[j] == after[1..][i];
          assert before[j + 1].id != before[0].id;
        }
        assert after == [after[0]] + after[1..];
        assert before == [before[0]] + rest;
      }
    }
  }

  lemma AddNumbered(s: State, user: nat, id: nat, r: ReminderInput, e: Effect)
    requires PlanAddReminder(s, user, id, r) == Ok(e) && AllNumbered(s, s.nextReminder)
    ensures NumberedChanges(e.changes, s.nextReminder + 1)
  {
    var list, x := s.schedules[id].reminders, Reminder(s.nextReminder, r.minutes, r.channel);
    var k := InsertedAt(list, x, Minutes);
    NumberedInsert(list, x, 0, s.nextReminder + 1, k);
  }

  lemma DeleteNumbered(s: State, user: nat, id: nat, reminderId: nat, e: Effect)
    requires PlanDeleteReminder(s, user, id, reminderId) == Ok(e) && AllNumbered(s, s.nextReminder)
    ensures NumberedChanges(e.changes, s.nextReminder)
  {
    var list := s.schedules[id].reminders;
    WithoutLoses(list, reminderId);
    LosesNumbered(list, reminderId, WithoutReminder(list, reminderId), s.nextReminder);
  }

  lemma UpdateNumbered(zones: Zones, s: State, c: Call, e: Effect)
    requires c.Update? && Fault(c).None? && Plan(zones, s, c) == Ok(e)
    requires AllNumbered(s, s.nextReminder)
    ensures NumberedChanges(e.changes, s.nextReminder)
  {
    if c.patch.scope == Following {
      var row := s.schedules[c.id];
      var merged := Validated(Merge(zones, row.fields, c.patch)).value;
      FollowingShape(zones, s, c.id, merged, c.patch, Later(s, row.slot.value));
    }
  }

  lemma PlanNumbered(zones: Zones, s: State, c: Call, e: Effect)
    requires Fault(c).None? && Plan(zones, s, c) == Ok(e) && AllNumbered(s, s.nextReminder)
    ensures NumberedChanges(e.changes, s.nextReminder + e.remindersUsed)
  {
    match c
    case Create(_, _, input) =>
      NewRemindersNumbered(input.reminders, s.nextReminder);
      Widened(
        NewReminders(input.reminders, s.nextReminder), s.nextReminder,
        s.nextReminder + |input.reminders|, s.nextReminder + |input.reminders|);
    case CreateSeries(user, _, input, os) => SeriesNumbered(s, user, input, os);
    case Update(_, _, _, _, _) => UpdateNumbered(zones, s, c, e);
    case AddReminder(user, _, id, r, _) => AddNumbered(s, user, id, r, e);
    case DeleteReminder(user, _, id, reminderId) => DeleteNumbered(s, user, id, reminderId, e);
    case _ =>
  }

  lemma CommitNumbered(zones: Zones, s: State, c: Call, e: Effect)
    requires Fault(c).None? && Plan(zones, s, c) == Ok(e) && AllNumbered(s, s.nextReminder)
    ensures AllNumbered(Commit(s, e), Commit(s, e).nextReminder)
  {
    var bound := s.nextReminder + e.remindersUsed;
    PlanNumbered(zones, s, c, e);
    AllWidened(s, s.nextReminder, bound);
    ChangesNumbered(AddSeries(s, e.newSeries), e.changes, bound);
    ApplyAllFrame(AddSeries(s, e.newSeries), e.changes);
  }

  lemma ActNumbered(zones: Zones, s: State, a: Action)
    requires AllNumbered(s, s.nextReminder)
    ensures AllNumbered(Act(zones, s, a), Act(zones, s, a).nextReminder)
  {
    if a.Do? && Judge(zones, s, a.call).Applied? {
      CommitNumbered(zones, s, a.call, Judge(zones, s, a.call).effect);
    }
  }

  /** In every reachable state the reminders of a schedule carry different numbers. */
  lemma {:induction false} NumbersDiffer(zones: Zones, actions: seq<Action>)
    ensures var s := Run(zones, Empty(), actions); AllNumbered(s, s.nextReminder)
  {
    if actions != [] {
      var n := |actions| - 1;
      NumbersDiffer(zones, actions[..n]);
      ActNumbered(zones, Run(zones, Empty(), actions[..n]), actions[n]);
    }
  }

  /** Hence, in every reachable state, deleting a reminder takes exactly one away. */
  lemma DeletesExactlyOne(zones: Zones, actions: seq<Action>, c: Call)
    requires c.DeleteReminder? && TakesEffect(zones, Run(zones, Empty(), actions), c)
    ensures var s := Run(zones, Empty(), actions);
      var t := After(zones, s, c);
      && c.id in s.schedules && c.id in t.schedules
      && var before, after := s.schedules[c.id].reminders, t.schedules[c.id].reminders;
         && |after| == |before| - 1
         && forall r :: r in after <==> r in before && r.id != c.reminderId
  {
    var s := Run(zones, Empty(), actions);
    NumbersDiffer(zones, actions);
    DeleteReminderOutcome(zones, s, c);
    LosesOne(
      s.schedules[c.id].reminders, c.reminderId,
      After(zones, s, c).schedules[c.id].reminders);
  }
}
