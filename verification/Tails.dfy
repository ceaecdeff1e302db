/**
 What the calls that touch many schedules do to the table: updates and deletions
 of a series from one occurrence on, and bulk deletion.
 */
module Tails {
  import opened Prelude
  import LocalTime
  import opened Patching
  import opened Ledger
  import opened Changes
  import opened Structure
  import opened Runs
  import opened Claims

  /** Schedule `k` is in the same series as `id`, at or after it. */
  ghost predicate InTail(s: State, id: nat, k: nat)
    requires id in s.schedules && s.schedules[id].slot.Some?
  {
    && k in s.schedules && s.schedules[k].slot.Some?
    && s.schedules[k].slot.value.series == s.schedules[id].slot.value.series
    && s.schedules[id].slot.value.index <= s.schedules[k].slot.value.index
  }

  /** The targets of a following-scope call are exactly that tail. */
  lemma TargetsAreTheTail(s: State, id: nat)
    requires Placed(s) && id in s.schedules && s.schedules[id].slot.Some?
    ensures forall k: nat :: k in Later(s, s.schedules[id].slot.value) <==> InTail(s, id, k)
  {
    var slot := s.schedules[id].slot.value;
    TargetsHold(s.schedules, slot.series, slot.index, MAX_OCCURRENCES);
    forall k: nat
      ensures k in Later(s, slot) <==> InTail(s, id, k)
    {
      if InTail(s, id, k) {
        assert Seated(s, s.schedules[k]);
        TargetsComplete(s.schedules, slot.series, slot.index, MAX_OCCURRENCES, k);
      }
    }
  }

  /** Edits of distinct schedules: each is written, the others stay. */
  lemma {:induction false} PutsWrite(s: State, cs: seq<Change>, targets: seq<nat>)
    requires |cs| == |targets| && Distinct(targets)
    requires forall i | 0 <= i < |cs| :: cs[i].Put? && cs[i].id == targets[i]
    requires forall i | 0 <= i < |cs| :: targets[i] in s.schedules
    ensures ApplyAll(s, cs).schedules.Keys == s.schedules.Keys
    ensures forall i | 0 <= i < |cs| :: ApplyAll(s, cs).schedules[targets[i]] == cs[i].row
    ensures forall k | k in s.schedules && k !in targets ::
      ApplyAll(s, cs).schedules[k] == s.schedules[k]
  {
    if cs != [] {
      var n := |cs| - 1;
      assert targets == targets[..n] + [targets[n]];
      PutsWrite(s, cs[..n], targets[..n]);
    }
  }

  ghost predicate FollowingCall(zones: Zones, s: State, c: Call) {
    c.Update? && c.patch.scope == Following && Placed(s) && TakesEffect(zones, s, c)
  }

  /** The selected schedule's fields after the patch. */
  ghost function Merged(zones: Zones, s: State, c: Call): Fields
    requires FollowingCall(zones, s, c)
  {
    Validated(Merge(zones, s.schedules[c.id].fields, c.patch)).value
  }

  /** The row a following-scope update leaves at `k`. */
  ghost predicate Rewritten(zones: Zones, s: State, c: Call, k: nat, row: Row)
    requires FollowingCall(zones, s, c) && k in s.schedules
  {
    var before := s.schedules[k];
    && row == before.(fields := row.fields, revision := before.revision + 1)
    && if k == c.id then row.fields == Merged(zones, s, c)
       else FollowingFields(
              zones, s.schedules[c.id].fields, Merged(zones, s, c), before.fields, c.patch)
            == Ok(row.fields)
  }

  ghost function Tail(s: State, c: Call): seq<nat>
    requires c.Update? && c.id in s.schedules && s.schedules[c.id].slot.Some?
  {
    Later(s, s.schedules[c.id].slot.value)
  }

  /** What a following-scope update plans, spelled out. */
  lemma FollowingPlan(zones: Zones, s: State, user: nat, id: nat, patch: Patch, e: Effect)
    requires PlanUpdateFollowing(zones, s, user, id, patch) == Ok(e)
    ensures Recurring(s, user, id)
    ensures patch.expectedRevision.Some? ==>
      patch.expectedRevision.value == s.schedules[id].revision
    ensures var merged := Validated(Merge(zones, s.schedules[id].fields, patch));
      && merged.Ok?
      && FollowingChanges(
           zones, s, id, merged.value, patch, Later(s, s.schedules[id].slot.value))
         == Ok(e.changes)
      && e == Effect(
           e.changes, 0, None, KeepSeries, Saved(id, Edited(s.schedules[id], merged.value)))
  {
  }

  lemma KeptSeriesCommit(s: State, e: Effect)
    requires e.newSeries.None?
    ensures Commit(s, e).schedules == ApplyAll(s, e.changes).schedules
  {
  }

  lemma FollowingEffect(zones: Zones, s: State, c: Call)
    requires FollowingCall(zones, s, c)
    ensures Recurring(s, c.user, c.id)
    ensures var cs := FollowingChanges(zones, s, c.id, Merged(zones, s, c), c.patch, Tail(s, c));
      cs.Ok? && After(zones, s, c).schedules == ApplyAll(s, cs.value).schedules
    ensures ReplyTo(zones, s, c) == Saved(c.id, Edited(s.schedules[c.id], Merged(zones, s, c)))
    ensures Validated(Merge(zones, s.schedules[c.id].fields, c.patch)).Ok?
    ensures c.patch.expectedRevision.Some? ==>
      c.patch.expectedRevision.value == s.schedules[c.id].revision
    ensures c.user !in s.tombstones
  {
    var e := Judge(zones, s, c).effect;
    FollowingPlan(zones, s, c.user, c.id, c.patch, e);
    KeptSeriesCommit(s, e);
  }

  lemma TailRewritten(zones: Zones, s: State, c: Call, cs: seq<Change>, t: map<nat, Row>, k: nat)
    requires FollowingCall(zones, s, c) && Recurring(s, c.user, c.id)
    requires FollowingChanges(zones, s, c.id, Merged(zones, s, c), c.patch, Tail(s, c)) == Ok(cs)
    requires k in Tail(s, c) && k in t
    requires |cs| == |Tail(s, c)| && forall i | 0 <= i < |cs| ::
      cs[i].Put? && Tail(s, c)[i] in t && t[Tail(s, c)[i]] == cs[i].row
    ensures k in s.schedules && Rewritten(zones, s, c, k, t[k])
  {
    var targets := Tail(s, c);
    FollowingShape(zones, s, c.id, Merged(zones, s, c), c.patch, targets);
    var i :| 0 <= i < |targets| && targets[i] == k;
    assert FollowingChange(zones, s, c.id, Merged(zones, s, c), c.patch, k) == Ok(cs[i]);
  }

  lemma TailIsWritten(s: State, c: Call, cs: seq<Change>)
    requires c.Update? && c.id in s.schedules && s.schedules[c.id].slot.Some?
    requires |cs| == |Tail(s, c)|
    requires forall i | 0 <= i < |cs| :: cs[i].Put? && cs[i].id == Tail(s, c)[i]
    ensures var t := ApplyAll(s, cs).schedules;
      && t.Keys == s.schedules.Keys
      && (forall i | 0 <= i < |cs| :: Tail(s, c)[i] in t && t[Tail(s, c)[i]] == cs[i].row)
      && (forall k | k in s.schedules && k !in Tail(s, c) :: t[k] == s.schedules[k])
  {
    var slot := s.schedules[c.id].slot.value;
    TargetsHold(s.schedules, slot.series, slot.index, MAX_OCCURRENCES);
    TargetsDistinct(s.schedules, slot.series, slot.index, MAX_OCCURRENCES);
    PutsWrite(s, cs, Tail(s, c));
  }

  /** A following-scope update rewrites exactly the tail of the series, each row
      once, and touches no other schedule. */
  lemma FollowingChangesTheTail(zones: Zones, s: State, c: Call)
    requires FollowingCall(zones, s, c)
    ensures Recurring(s, c.user, c.id)
    ensures var t := After(zones, s, c);
      && t.schedules.Keys == s.schedules.Keys
      && forall k | k in s.schedules ::
           if InTail(s, c.id, k) then Rewritten(zones, s, c, k, t.schedules[k])
           else t.schedules[k] == s.schedules[k]
  {
    FollowingEffect(zones, s, c);
    var cs := FollowingChanges(zones, s, c.id, Merged(zones, s, c), c.patch, Tail(s, c)).value;
    var t := After(zones, s, c).schedules;
    TargetsAreTheTail(s, c.id);
    FollowingShape(zones, s, c.id, Merged(zones, s, c), c.patch, Tail(s, c));
    TailIsWritten(s, c, cs);
    forall k | k in s.schedules && InTail(s, c.id, k)
      ensures Rewritten(zones, s, c, k, t[k])
    {
      TailRewritten(zones, s, c, cs, t, k);
    }
  }

  lemma SelectedRow(zones: Zones, s: State, c: Call)
    requires FollowingCall(zones, s, c)
    ensures c.id in s.schedules && c.id in After(zones, s, c).schedules
    ensures After(zones, s, c).schedules[c.id] == Edited(s.schedules[c.id], Merged(zones, s, c))
  {
    FollowingChangesTheTail(zones, s, c);
    assert InTail(s, c.id, c.id);
  }

  /** The same patch, of the selected schedule only. */
  function Alone(c: Call): Call
    requires c.Update?
  {
    Update(c.user, "", c.id, c.patch.(scope := This), c.hash)
  }

  /** The selected schedule ends up as a plain update of it alone would leave it. */
  lemma SelectedAsIfAlone(zones: Zones, s: State, c: Call)
    requires FollowingCall(zones, s, c)
    ensures TakesEffect(zones, s, Alone(c)) && c.id in After(zones, s, c).schedules
    ensures After(zones, s, Alone(c)).schedules ==
      s.schedules[c.id := After(zones, s, c).schedules[c.id]]
    ensures ReplyTo(zones, s, Alone(c)) == ReplyTo(zones, s, c)
  {
    FollowingEffect(zones, s, c);
    SelectedRow(zones, s, c);
    var fields := Merged(zones, s, c);
    AloneAgrees(zones, s, c, fields);
  }

  lemma AloneAgrees(zones: Zones, s: State, c: Call, fields: Fields)
    requires c.Update? && c.user !in s.tombstones && Owned(s, c.user, c.id)
    requires c.patch.expectedRevision.Some? ==>
      c.patch.expectedRevision.value == s.schedules[c.id].revision
    requires Validated(Merge(zones, s.schedules[c.id].fields, c.patch)) == Ok(fields)
    ensures TakesEffect(zones, s, Alone(c))
    ensures var row := Edited(s.schedules[c.id], fields);
      && After(zones, s, Alone(c)).schedules == s.schedules[c.id := row]
      && ReplyTo(zones, s, Alone(c)) == Saved(c.id, row)
  {
    MergeIgnoresScope(zones, s.schedules[c.id].fields, c.patch, This);
    AloneWrites(zones, s, Alone(c), fields);
  }

  lemma MergeIgnoresScope(zones: Zones, before: Fields, patch: Patch, scope: Scope)
    ensures Merge(zones, before, patch.(scope := scope)) == Merge(zones, before, patch)
  {
  }

  lemma AloneWrites(zones: Zones, s: State, c: Call, fields: Fields)
    requires c.Update? && c.patch.scope == This && c.key == "" && c.user !in s.tombstones
    requires Owned(s, c.user, c.id)
    requires c.patch.expectedRevision.Some? ==>
      c.patch.expectedRevision.value == s.schedules[c.id].revision
    requires Validated(Merge(zones, s.schedules[c.id].fields, c.patch)) == Ok(fields)
    ensures TakesEffect(zones, s, c)
    ensures var row := Edited(s.schedules[c.id], fields);
      && After(zones, s, c).schedules == s.schedules[c.id := row]
      && ReplyTo(zones, s, c) == Saved(c.id, row)
  {
    var e := SaveEffect(c.id, Edited(s.schedules[c.id], fields));
    assert Plan(zones, s, c) == Ok(e);
    assert e.changes[..0] == [];
    assert ApplyAll(s, e.changes[..0]) == s;
  }

  lemma RewrittenNormal(zones: Zones, s: State, c: Call, k: nat, row: Row)
    requires FollowingCall(zones, s, c) && k in s.schedules && Rewritten(zones, s, c, k, row)
    ensures Normal(zones, row.fields)
  {
    FollowingPlan(zones, s, c.user, c.id, c.patch, Judge(zones, s, c).effect);
    MergeIsNormal(zones, s.schedules[c.id].fields, c.patch);
    if k != c.id {
      FollowingIsNormal(
        zones, s.schedules[c.id].fields, Merged(zones, s, c), s.schedules[k].fields, c.patch);
    }
  }

  /** Every row it writes is in normal form. */
  lemma FollowingLeavesNormalRows(zones: Zones, s: State, c: Call, k: nat)
    requires FollowingCall(zones, s, c) && Recurring(s, c.user, c.id) && InTail(s, c.id, k)
    ensures k in After(zones, s, c).schedules
    ensures Normal(zones, After(zones, s, c).schedules[k].fields)
  {
    FollowingChangesTheTail(zones, s, c);
    RewrittenNormal(zones, s, c, k, After(zones, s, c).schedules[k]);
  }

  /** Whatever its scope, a PATCH that takes effect leaves the schedule it names in
      normal form. */
  lemma PatchLeavesNormalRow(zones: Zones, s: State, c: Call)
    requires c.Update? && Placed(s) && TakesEffect(zones, s, c)
    ensures c.id in After(zones, s, c).schedules
    ensures Normal(zones, After(zones, s, c).schedules[c.id].fields)
  {
    if c.patch.scope == Following {
      FollowingEffect(zones, s, c);
      FollowingLeavesNormalRows(zones, s, c, c.id);
    } else {
      PlainPatchWrites(zones, s, c);
      MergeIsNormal(zones, s.schedules[c.id].fields, c.patch);
    }
  }

  lemma PlainPatchWrites(zones: Zones, s: State, c: Call)
    requires c.Update? && c.patch.scope != Following && TakesEffect(zones, s, c)
    ensures c.id in s.schedules
    ensures var merged := Validated(Merge(zones, s.schedules[c.id].fields, c.patch));
      merged.Ok? && After(zones, s, c).schedules ==
        s.schedules[c.id := Edited(s.schedules[c.id], merged.value)]
  {
    var e := Judge(zones, s, c).effect;
    assert e.changes[..0] == [];
    assert ApplyAll(s, e.changes[..0]) == s;
  }

  /** What the row's start reads on its own wall clock. */
  function WallStart(zones: Zones, f: Fields, timezone: string): int {
    LocalTime.LocalNs(ZoneOrUtc(zones, Named(timezone)), f.startAt)
  }

  function WallEnd(zones: Zones, f: Fields, timezone: string): int {
    if f.endAt.Some? then LocalTime.LocalNs(ZoneOrUtc(zones, Named(timezone)), f.endAt.value) else 0
  }

  lemma RewrittenShift(zones: Zones, s: State, c: Call, k: nat, row: Row)
    requires FollowingCall(zones, s, c) && k in s.schedules && Rewritten(zones, s, c, k, row)
    requires c.patch.timezone.None? && c.patch.allDay.None?
    requires c.patch.startAt.Some? || c.patch.endAt.Some?
    requires c.id in s.schedules && !s.schedules[c.id].fields.allDay && !s.schedules[k].fields.allDay
    ensures var before, merged := s.schedules[k].fields, Merged(zones, s, c);
      var z := before.timezone;
      && WallStart(zones, row.fields, z) - WallStart(zones, before, z) ==
         WallShift(zones, s.schedules[c.id].fields, merged)
      && (row.fields.endAt.None? <==> merged.endAt.None?)
      && (row.fields.endAt.Some? ==>
            WallEnd(zones, row.fields, z) - WallStart(zones, row.fields, z) ==
            WallLength(zones, merged))
  {
    if k != c.id {
      LaterShift(
        zones, s.schedules[c.id].fields, Merged(zones, s, c), s.schedules[k].fields, c.patch,
        row.fields);
    }
  }

  /** If the patch moves start or end and leaves timezone and all-day mode alone,
      all timed rows of the tail move by one wall-clock shift and get one
      wall-clock length, or all lose their end. */
  lemma TailMovesAsOne(zones: Zones, s: State, c: Call, j: nat, k: nat)
    requires FollowingCall(zones, s, c) && Recurring(s, c.user, c.id)
    requires InTail(s, c.id, j) && InTail(s, c.id, k)
    requires c.patch.timezone.None? && c.patch.allDay.None?
    requires c.patch.startAt.Some? || c.patch.endAt.Some?
    requires !s.schedules[c.id].fields.allDay
    requires !s.schedules[j].fields.allDay && !s.schedules[k].fields.allDay
    ensures j in After(zones, s, c).schedules && k in After(zones, s, c).schedules
    ensures var t := After(zones, s, c);
      var fj, fk, bj, bk :=
        t.schedules[j].fields, t.schedules[k].fields, s.schedules[j].fields, s.schedules[k].fields;
      && WallStart(zones, fj, bj.timezone) - WallStart(zones, bj, bj.timezone) ==
         WallStart(zones, fk, bk.timezone) - WallStart(zones, bk, bk.timezone)
      && (fj.endAt.None? <==> fk.endAt.None?)
      && (fj.endAt.Some? ==>
            WallEnd(zones, fj, bj.timezone) - WallStart(zones, fj, bj.timezone) ==
            WallEnd(zones, fk, bk.timezone) - WallStart(zones, fk, bk.timezone))
  {
    FollowingChangesTheTail(zones, s, c);
    var t := After(zones, s, c);
    RewrittenShift(zones, s, c, j, t.schedules[j]);
    RewrittenShift(zones, s, c, k, t.schedules[k]);
  }

  lemma RewrittenDays(zones: Zones, s: State, c: Call, k: nat, row: Row)
    requires FollowingCall(zones, s, c) && k in s.schedules && Rewritten(zones, s, c, k, row)
    requires c.id in s.schedules && c.patch.allDay.None?
    requires s.schedules[c.id].fields.allDay && s.schedules[c.id].fields.startDate.Some?
    requires s.schedules[k].fields.allDay && s.schedules[k].fields.startDate.Some?
    ensures var before, selected, merged :=
        s.schedules[k].fields, s.schedules[c.id].fields, Merged(zones, s, c);
      && row.fields.startDate.Some? && row.fields.endDate.Some?
      && row.fields.startDate.value - before.startDate.value == DayShift(selected, merged)
      && row.fields.endDate.value - row.fields.startDate.value == DaySpan(merged)
  {
    MergeIsNormal(zones, s.schedules[c.id].fields, c.patch);
    if k != c.id {
      UniformDayShift(
        zones, s.schedules[c.id].fields, Merged(zones, s, c), s.schedules[k].fields, c.patch);
    }
  }

  /** All dated all-day rows of the tail move by one number of days and span one
      number of days. */
  lemma TailMovesByDays(zones: Zones, s: State, c: Call, j: nat, k: nat)
    requires FollowingCall(zones, s, c) && Recurring(s, c.user, c.id)
    requires InTail(s, c.id, j) && InTail(s, c.id, k) && c.patch.allDay.None?
    requires forall i | i in [j, k, c.id] && i in s.schedules ::
      s.schedules[i].fields.allDay && s.schedules[i].fields.startDate.Some?
    ensures j in After(zones, s, c).schedules && k in After(zones, s, c).schedules
    ensures var t := After(zones, s, c);
      var fj, fk, bj, bk :=
        t.schedules[j].fields, t.schedules[k].fields, s.schedules[j].fields, s.schedules[k].fields;
      && fj.startDate.Some? && fj.endDate.Some? && fk.startDate.Some? && fk.endDate.Some?
      && bj.startDate.Some? && bk.startDate.Some?
      && fj.startDate.value - bj.startDate.value == fk.startDate.value - bk.startDate.value
      && fj.endDate.value - fj.startDate.value == fk.endDate.value - fk.startDate.value
  {
    FollowingChangesTheTail(zones, s, c);
    var t := After(zones, s, c);
    assert j in [j, k, c.id] && k in [j, k, c.id] && c.id in [j, k, c.id];
    RewrittenDays(zones, s, c, j, t.schedules[j]);
    RewrittenDays(zones, s, c, k, t.schedules[k]);
  }

  // ---------- Deletions ----------

  /** Deleting from one occurrence on removes exactly the tail. */
  lemma DeleteFollowingRemovesTheTail(zones: Zones, s: State, c: Call)
    requires c.DeleteFollowing? && Placed(s) && TakesEffect(zones, s, c)
    ensures Recurring(s, c.user, c.id)
    ensures var t := After(zones, s, c);
      && (forall k: nat :: k in t.schedules <==> k in s.schedules && !InTail(s, c.id, k))
      && (forall k | k in t.schedules :: t.schedules[k] == s.schedules[k])
  {
    var targets := Later(s, s.schedules[c.id].slot.value);
    TargetsAreTheTail(s, c.id);
    DropsRemove(s, targets);
    KeptSeriesCommit(s, Judge(zones, s, c).effect);
  }

  /** Bulk deletion is all or nothing: it takes effect only if every id is the
      caller's own and listed once, and then removes exactly those. */
  lemma BulkDeleteIsAllOrNothing(zones: Zones, s: State, c: Call)
    requires c.BulkDelete? && c.user !in s.tombstones && (c.key == "" || !Live(s, KeyOf(c)))
    ensures TakesEffect(zones, s, c) <==> AllOwned(s, c.user, c.ids) && Distinct(c.ids)
    ensures var t := After(zones, s, c);
      if TakesEffect(zones, s, c) then
        && ReplyTo(zones, s, c) == RemovedMany(|c.ids|)
        && (forall k: nat :: k in t.schedules <==> k in s.schedules && k !in c.ids)
        && (forall k | k in t.schedules :: t.schedules[k] == s.schedules[k])
      else t == s && ReplyTo(zones, s, c) == Refused(NotFound)
  {
    if AllOwned(s, c.user, c.ids) && Distinct(c.ids) {
      var sorted := Sort(c.ids, ById);
      SortedOwned(s, c.user, c.ids);
      DropsRemove(s, sorted);
      assert After(zones, s, c).schedules == ApplyAll(s, Drops(sorted)).schedules;
    }
  }
}
