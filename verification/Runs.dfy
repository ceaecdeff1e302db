/**
 What holds in every state the service can reach: from empty tables, by any
 sequence of calls of any users, erasures, extractions and passing time.
 */
module Runs {
  import opened Prelude
  import opened Patching
  import opened Ledger
  import opened Changes
  import opened Structure
  import opened Journal
  import opened Erasure

  ghost predicate Journaled(s: State) {
    forall id: nat :: Chronicle(s, id)
  }

  ghost predicate Inv(s: State) {
    Sound(s) && Journaled(s) && Absorbed(s)
  }

  // ---------- One step ----------

  lemma CommitJournaled(zones: Zones, s: State, c: Call, e: Effect)
    requires Fault(c).None? && Plan(zones, s, c) == Ok(e) && Inv(s)
    ensures Journaled(Commit(s, e))
  {
    var s0 := AddSeries(s, e.newSeries);
    PlanIsValid(zones, s, c);
    JournaledAside(s, s0);
    ApplyAllKeeps(s0, c.user, e.changes);
    JournaledAside(ApplyAll(s0, e.changes), Commit(s, e));
  }

  /** The journal looks at the schedules and the outbox only. */
  lemma JournaledAside(s: State, t: State)
    requires Journaled(s) && t.schedules == s.schedules && t.outbox == s.outbox
    requires s.nextSchedule <= t.nextSchedule
    ensures Journaled(t)
  {
    forall id: nat
      ensures Chronicle(t, id)
    {
      SameJournal(s, t, id);
    }
  }

  lemma FrameOfCommit(s: State, e: Effect)
    ensures var t := Commit(s, e);
      && t.claims == s.claims && t.tombstones == s.tombstones && t.now == s.now
      && t.aiRows == s.aiRows && s.nextSchedule <= t.nextSchedule && s.outbox <= t.outbox
  {
    ApplyAllFrame(AddSeries(s, e.newSeries), e.changes);
  }

  lemma CommitAbsorbed(zones: Zones, s: State, c: Call, e: Effect)
    requires Fault(c).None? && Plan(zones, s, c) == Ok(e) && Inv(s) && c.user !in s.tombstones
    ensures Absorbed(Commit(s, e))
  {
    var t := Commit(s, e);
    FrameOfCommit(s, e);
    forall user | user in t.tombstones
      ensures OwnsNothing(t, user)
    {
      CommitByAnother(zones, s, c, e, user);
    }
  }

  /** Filing a claim for a live user disturbs nothing. */
  lemma FileClaimInv(s: State, c: Call, answer: Reply)
    requires Inv(s) && c.user !in s.tombstones
    ensures Inv(FileClaim(s, c, answer))
  {
    var t := FileClaim(s, c, answer);
    JournaledAside(s, t);
    forall user | user in t.tombstones
      ensures OwnsNothing(t, user)
    {
      assert OwnsNothing(s, user);
    }
    SameShape(s, t);
  }

  lemma SameShape(s: State, t: State)
    requires Sound(s) && t.schedules == s.schedules && t.series == s.series && t.outbox == s.outbox
    requires t.nextSchedule == s.nextSchedule && t.nextSeries == s.nextSeries
    requires t.nextEvent == s.nextEvent
    ensures Sound(t)
  {
    forall id | id in t.schedules
      ensures Seated(t, t.schedules[id])
    {
      assert Seated(s, s.schedules[id]);
    }
  }

  lemma CommittedInv(zones: Zones, s: State, c: Call, e: Effect)
    requires Fault(c).None? && Plan(zones, s, c) == Ok(e) && Inv(s) && c.user !in s.tombstones
    ensures Inv(FileClaim(Commit(s, e), c, e.reply))
  {
    CommitSound(zones, s, c, e);
    CommitJournaled(zones, s, c, e);
    CommitAbsorbed(zones, s, c, e);
    FrameOfCommit(s, e);
    FileClaimInv(Commit(s, e), c, e.reply);
  }

  lemma AfterInv(zones: Zones, s: State, c: Call)
    requires Inv(s)
    ensures Inv(After(zones, s, c))
  {
    var v := Judge(zones, s, c);
    if v.Applied? {
      CommittedInv(zones, s, c, v.effect);
    }
  }

  lemma EraseInv(s: State, user: nat)
    requires Inv(s)
    ensures Inv(Erase(s, user))
  {
    EraseSound(s, user);
    var t := Erase(s, user);
    forall id: nat
      ensures Chronicle(t, id)
    {
      EraseKeeps(s, user, id);
    }
    forall u | u in t.tombstones
      ensures OwnsNothing(t, u)
    {
      EraseTakesAll(s, user);
      if u != user {
        EraseKeepsAbsence(s, user, u);
      }
    }
  }

  lemma OtherAbsorbed(zones: Zones, s: State, a: Action)
    requires Absorbed(s) && (a.AiWrite? || a.Tick?)
    ensures Absorbed(Act(zones, s, a))
  {
    var t := Act(zones, s, a);
    forall user | user in t.tombstones
      ensures OwnsNothing(t, user)
    {
      assert OwnsNothing(s, user);
    }
  }

  lemma OtherInv(zones: Zones, s: State, a: Action)
    requires Inv(s) && (a.AiWrite? || a.Tick?)
    ensures Inv(Act(zones, s, a))
  {
    var t := Act(zones, s, a);
    SameShape(s, t);
    JournaledAside(s, t);
    OtherAbsorbed(zones, s, a);
  }

  /** Every action keeps the invariant. */
  lemma ActInv(zones: Zones, s: State, a: Action)
    requires Inv(s)
    ensures Inv(Act(zones, s, a))
  {
    match a
    case Do(c) => AfterInv(zones, s, c);
    case EraseAccount(user) => EraseInv(s, user);
    case AiWrite(_) => OtherInv(zones, s, a);
    case Tick(_) => OtherInv(zones, s, a);
  }

  lemma {:induction false} RunInv(zones: Zones, s: State, actions: seq<Action>)
    requires Inv(s)
    ensures Inv(Run(zones, s, actions))
  {
    if actions != [] {
      RunInv(zones, s, actions[..|actions| - 1]);
      ActInv(zones, Run(zones, s, actions[..|actions| - 1]), actions[|actions| - 1]);
    }
  }

  lemma EmptyInv()
    ensures Inv(Empty())
  {
  }

  // ---------- The main invariants, spelled out ----------

  /** In every reachable state the outbox tells each schedule's whole story: its
      events carry revisions 1..n, each once and in order; a live schedule is at
      revision n and looks as event n says; a deleted one ends in its deletion. */
  lemma OutboxTellsTheStory(zones: Zones, actions: seq<Action>, id: nat)
    ensures var s := Run(zones, Empty(), actions);
      var h := History(s.outbox, id);
      && (forall i | 0 <= i < |h| :: h[i].schedule == id && h[i].revision == i + 1)
      && (id in s.schedules ==>
            && |h| == s.schedules[id].revision && |h| > 0
            && h[|h| - 1].owner == s.schedules[id].owner
            && !h[|h| - 1].body.Deleted?
            && Pictures(h[|h| - 1].body.snapshot, s.schedules[id]))
      && (id !in s.schedules && h != [] ==> h[|h| - 1].body.Deleted?)
      && (forall i | 0 <= i < |h| - 1 :: !h[i].body.Deleted?)
  {
    EmptyInv();
    RunInv(zones, Empty(), actions);
    var s := Run(zones, Empty(), actions);
    assert Chronicle(s, id);
    HistoryOf(s.outbox, id);
  }

  lemma {:induction false} HistoryOf(outbox: seq<OutboxRow>, id: nat)
    ensures forall i | 0 <= i < |History(outbox, id)| :: History(outbox, id)[i].schedule == id
  {
    if outbox != [] {
      HistoryOf(outbox[..|outbox| - 1], id);
    }
  }

  /** At most five reminders, listed by minutes, no two for the same minute, each up
      to a week before and by telegram. */
  ghost predicate SmallAndDistinct(rs: seq<Reminder>) {
    && |rs| <= 5
    && (forall i, j | 0 <= i < j < |rs| :: rs[i].minutes < rs[j].minutes)
    && (forall i | 0 <= i < |rs| :: 0 <= rs[i].minutes <= 10080 && rs[i].channel == "telegram")
  }

  lemma RemindersOkMeans(rs: seq<Reminder>)
    requires RemindersOk(rs)
    ensures SmallAndDistinct(rs)
  {
    forall i, j | 0 <= i < j < |rs|
      ensures rs[i].minutes < rs[j].minutes
    {
      assert Minutes(rs[i]) < Minutes(rs[j]);
    }
    assert forall i | 0 <= i < |rs| :: ReminderOk(rs[i]);
  }

  /** In every reachable state: reminder sets are small, valid and free of
      duplicates; no series is empty; its occurrences belong to its owner, at
      distinct indices. */
  lemma TablesKeepTheirShape(zones: Zones, actions: seq<Action>)
    ensures var s := Run(zones, Empty(), actions);
      && (forall id | id in s.schedules :: SmallAndDistinct(s.schedules[id].reminders))
      && (forall k | k in s.series :: exists id ::
            id in s.schedules && s.schedules[id].slot.Some? && s.schedules[id].slot.value.series == k)
      && (forall id | id in s.schedules && s.schedules[id].slot.Some? ::
            var k := s.schedules[id].slot.value.series;
            k in s.series && s.series[k].owner == s.schedules[id].owner)
      && (forall id | id in s.schedules && s.schedules[id].slot.Some? ::
            s.schedules[id].slot.value.index < 100)
      && SlotsUnique(s.schedules)
  {
    EmptyInv();
    RunInv(zones, Empty(), actions);
    var s := Run(zones, Empty(), actions);
    forall id | id in s.schedules
      ensures SmallAndDistinct(s.schedules[id].reminders)
    {
      RemindersOkMeans(s.schedules[id].reminders);
    }
    forall id | id in s.schedules && s.schedules[id].slot.Some?
      ensures var k := s.schedules[id].slot.value.series;
        k in s.series && s.series[k].owner == s.schedules[id].owner
      ensures s.schedules[id].slot.value.index < 100
    {
      assert Seated(s, s.schedules[id]);
    }
    forall k | k in s.series
      ensures exists id ::
        id in s.schedules && s.schedules[id].slot.Some? && s.schedules[id].slot.value.series == k
    {
      assert !Orphan(s.schedules, k);
    }
  }

  lemma TombstonesStay(zones: Zones, s: State, a: Action)
    ensures s.tombstones <= Act(zones, s, a).tombstones
    ensures s.now <= Act(zones, s, a).now
    ensures s.nextSchedule <= Act(zones, s, a).nextSchedule
  {
    if a.Do? {
      var v := Judge(zones, s, a.call);
      if v.Applied? {
        FrameOfCommit(s, v.effect);
      }
    }
  }

  lemma {:induction false} RunMonotone(zones: Zones, s: State, actions: seq<Action>)
    ensures s.tombstones <= Run(zones, s, actions).tombstones
    ensures s.now <= Run(zones, s, actions).now
    ensures s.nextSchedule <= Run(zones, s, actions).nextSchedule
  {
    if actions != [] {
      RunMonotone(zones, s, actions[..|actions| - 1]);
      TombstonesStay(zones, Run(zones, s, actions[..|actions| - 1]), actions[|actions| - 1]);
    }
  }

  lemma {:induction false} RunAppend(zones: Zones, s: State, a: seq<Action>, b: seq<Action>)
    ensures Run(zones, s, a + b) == Run(zones, Run(zones, s, a), b)
  {
    if b == [] {
      assert a + b == a;
    } else {
      var n := |b| - 1;
      assert (a + b)[..|a + b| - 1] == a + b[..n];
      RunAppend(zones, s, a, b[..n]);
    }
  }

  /** Once an account's cleanup has committed, then after any further actions the
      user owns no row in any table, and whatever they ask is refused and
      changes nothing. */
  lemma ErasureIsAbsorbing(
    zones: Zones, before: seq<Action>, user: nat, later: seq<Action>, c: Call)
    requires c.user == user
    ensures var s := Run(zones, Empty(), before + [EraseAccount(user)] + later);
      && OwnsNothing(s, user)
      && After(zones, s, c) == s && ReplyTo(zones, s, c).Refused?
  {
    var first := before + [EraseAccount(user)];
    var s1 := Run(zones, Empty(), first);
    assert first[..|first| - 1] == before;
    RunAppend(zones, Empty(), first, later);
    RunMonotone(zones, s1, later);
    EmptyInv();
    RunInv(zones, Empty(), first + later);
    ErasedIsRefused(zones, Run(zones, s1, later), c);
  }
}
