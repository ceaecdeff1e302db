/**
 Idempotency keys and expected revisions: which of several requests take effect.
 */
module Claims {
  import opened Prelude
  import opened Patching
  import opened Ledger
  import opened Changes
  import opened Structure
  import opened Erasure
  import opened Runs

  // ---------- A claim lives for a day ----------

  /** The claim stands, or its owner's account has been erased. */
  ghost predicate Stands(s: State, k: ClaimKey, claim: Claim) {
    k.user in s.tombstones || (k in s.claims && s.claims[k] == claim)
  }

  lemma ClaimSurvives(zones: Zones, s: State, a: Action, k: ClaimKey, claim: Claim)
    requires Stands(s, k, claim) && s.now < claim.expiresAt
    ensures Stands(Act(zones, s, a), k, claim)
  {
    TombstonesStay(zones, s, a);
    if a.Do? && Judge(zones, s, a.call).Applied? {
      FrameOfCommit(s, Judge(zones, s, a.call).effect);
    }
  }

  lemma {:induction false} ClaimPersists(
    zones: Zones, s: State, actions: seq<Action>, k: ClaimKey, claim: Claim)
    requires Stands(s, k, claim) && Run(zones, s, actions).now < claim.expiresAt
    ensures Stands(Run(zones, s, actions), k, claim)
  {
    if actions != [] {
      var n := |actions| - 1;
      var t := Run(zones, s, actions[..n]);
      TombstonesStay(zones, t, actions[n]);
      ClaimPersists(zones, s, actions[..n], k, claim);
      ClaimSurvives(zones, t, actions[n], k, claim);
    }
  }

  // ---------- Exactly once ----------

  /** Call `c` takes effect in state `s`. */
  ghost predicate TakesEffect(zones: Zones, s: State, c: Call) {
    Judge(zones, s, c).Applied?
  }

  /** Two requests with one key and the same content. */
  ghost predicate SameRequest(c: Call, d: Call) {
    KeyOf(c) == KeyOf(d) && Subject(c) == Subject(d) && DigestOf(c) == DigestOf(d)
  }

  ghost function ClaimOf(zones: Zones, s: State, c: Call): Claim {
    Claim(Subject(c), DigestOf(c), ReplyTo(zones, s, c), s.now + CLAIM_MILLIS)
  }

  lemma ClaimIsFiled(zones: Zones, s: State, c: Call)
    requires TakesEffect(zones, s, c) && c.key != ""
    ensures Stands(After(zones, s, c), KeyOf(c), ClaimOf(zones, s, c))
  {
    FrameOfCommit(s, Judge(zones, s, c).effect);
  }

  /** A standing claim decides every call with its key. */
  lemma ClaimDecides(zones: Zones, t: State, d: Call, claim: Claim)
    requires Stands(t, KeyOf(d), claim) && t.now < claim.expiresAt && d.key != ""
    ensures Judge(zones, t, d).Answered? && After(zones, t, d) == t
    ensures var r := ReplyTo(zones, t, d);
      if claim.subject == Subject(d) && claim.digest == DigestOf(d)
      then r.Refused? || r == claim.answer
      else r.Refused? &&
           (Fault(d).None? && d.user !in t.tombstones ==> r == Refused(IdempotencyConflict))
  {
  }

  /** The kind of a call; a single and a series creation are one kind. */
  ghost predicate SameKind(c: Call, d: Call) {
    || ((c.Create? || c.CreateSeries?) && (d.Create? || d.CreateSeries?))
    || (c.Update? && d.Update?) || (c.Delete? && d.Delete?)
    || (c.DeleteFollowing? && d.DeleteFollowing?) || (c.BulkDelete? && d.BulkDelete?)
    || (c.AddReminder? && d.AddReminder?) || (c.DeleteReminder? && d.DeleteReminder?)
  }

  /** Keys are told apart by user, kind of call and text. */
  lemma KeysMean(c: Call, d: Call)
    ensures KeyOf(c) == KeyOf(d) <==> c.user == d.user && c.key == d.key && SameKind(c, d)
  {
  }

  /** The input a creation is remembered by; a single one has its defaults filled in. */
  function Remembered(c: Call): CreateInput
    requires c.Create? || c.CreateSeries?
  {
    if c.CreateSeries? then c.input
    else c.input.(
      timezone := if c.input.timezone == "" then "UTC" else c.input.timezone,
      status := if c.input.status == "" then "confirmed" else c.input.status,
      source := if c.input.source == "" then "manual" else c.input.source)
  }

  /** Two requests are the same if they agree in user, key and kind, and then in what
      they are remembered by: a creation by its input, a deletion by its schedule, a
      reminder deletion by schedule and reminder, a bulk deletion by its body, and any
      other by schedule and body. */
  lemma SameRequestMeans(c: Call, d: Call)
    ensures SameRequest(c, d) <==>
      && c.user == d.user && c.key == d.key && SameKind(c, d)
      && if c.Create? || c.CreateSeries? then Remembered(c) == Remembered(d)
         else if c.BulkDelete? then c.hash == d.hash
         else if c.Delete? then c.id == d.id
         else if c.DeleteReminder? then c.id == d.id && c.reminderId == d.reminderId
         else c.id == d.id && c.hash == d.hash
  {
  }

  /** Within a day of a call that took effect, a call with its user, operation
      and key changes nothing.  With the same content it is answered as the first
      one was or refused; with other content it is refused. */
  lemma ExactlyOnce(zones: Zones, s: State, c: Call, between: seq<Action>, d: Call)
    requires TakesEffect(zones, s, c) && c.key != "" && KeyOf(d) == KeyOf(c)
    requires Run(zones, After(zones, s, c), between).now < s.now + 86_400_000
    ensures var t := Run(zones, After(zones, s, c), between);
      && !TakesEffect(zones, t, d) && After(zones, t, d) == t
      && var r := ReplyTo(zones, t, d);
         && (SameRequest(c, d) ==> r.Refused? || r == ReplyTo(zones, s, c))
         && (!SameRequest(c, d) ==> r.Refused?)
         && (!SameRequest(c, d) && Fault(d).None? && d.user !in t.tombstones ==>
               r == Refused(IdempotencyConflict))
  {
    ClaimIsFiled(zones, s, c);
    ClaimPersists(zones, After(zones, s, c), between, KeyOf(c), ClaimOf(zones, s, c));
    ClaimDecides(zones, Run(zones, After(zones, s, c), between), d, ClaimOf(zones, s, c));
  }

  /** Hence, among all calls of a run that share user, operation and a nonempty
      key, two that take effect are at least a day apart. */
  lemma AtMostOneTakesEffect(
    zones: Zones, s: State, before: seq<Action>, c: Call, between: seq<Action>, d: Call)
    requires c.key != "" && KeyOf(d) == KeyOf(c)
    requires TakesEffect(zones, Run(zones, s, before), c)
    requires TakesEffect(zones, Run(zones, s, before + [Do(c)] + between), d)
    ensures Run(zones, s, before + [Do(c)] + between).now >=
      Run(zones, s, before).now + 86_400_000
  {
    var first := before + [Do(c)];
    assert first[..|first| - 1] == before;
    RunAppend(zones, s, first, between);
    var s1 := Run(zones, s, before);
    var t := Run(zones, After(zones, s1, c), between);
    if t.now < s1.now + 86_400_000 {
      ExactlyOnce(zones, s1, c, between, d);
    }
  }

  /** The call at position `i` of a run filed this claim. */
  ghost predicate FiledAt(
    zones: Zones, s: State, actions: seq<Action>, i: nat, k: ClaimKey, claim: Claim)
    requires i < |actions|
  {
    && actions[i].Do?
    && var c, t := actions[i].call, Run(zones, s, actions[..i]);
       && KeyOf(c) == k && TakesEffect(zones, t, c)
       && claim == ClaimOf(zones, t, c)
  }

  lemma ClaimsGrowByOne(zones: Zones, t: State, a: Action, k: ClaimKey)
    requires k in Act(zones, t, a).claims
    ensures var claim := Act(zones, t, a).claims[k];
      || (k in t.claims && t.claims[k] == claim)
      || (a.Do? && KeyOf(a.call) == k && TakesEffect(zones, t, a.call) &&
          claim == ClaimOf(zones, t, a.call))
  {
    if a.Do? && Judge(zones, t, a.call).Applied? {
      FrameOfCommit(t, Judge(zones, t, a.call).effect);
    }
  }

  /** A claim is visible only if the mutation it guards took effect, and it holds
      what was asked and answered then. */
  lemma {:induction false} ClaimsComeFromCommits(
    zones: Zones, actions: seq<Action>, k: ClaimKey)
    requires k in Run(zones, Empty(), actions).claims
    ensures var claim := Run(zones, Empty(), actions).claims[k];
      exists i | 0 <= i < |actions| :: FiledAt(zones, Empty(), actions, i, k, claim)
  {
    var n := |actions| - 1;
    var prior := actions[..n];
    var t := Run(zones, Empty(), prior);
    var a := actions[n];
    var claim := Run(zones, Empty(), actions).claims[k];
    ClaimsGrowByOne(zones, t, a, k);
    if k in t.claims && t.claims[k] == claim {
      ClaimsComeFromCommits(zones, prior, k);
      var i :| 0 <= i < n && FiledAt(zones, Empty(), prior, i, k, claim);
      assert prior[..i] == actions[..i];
      assert FiledAt(zones, Empty(), actions, i, k, claim);
    } else {
      assert FiledAt(zones, Empty(), actions, n, k, claim);
    }
  }

  /** After a day the key is free again, unless a later call has claimed it. */
  lemma KeyIsFreeAfterADay(zones: Zones, s: State, c: Call, between: seq<Action>)
    requires TakesEffect(zones, s, c) && c.key != ""
    requires Run(zones, After(zones, s, c), between).now >= s.now + 86_400_000
    ensures var t := Run(zones, After(zones, s, c), between);
      Stands(t, KeyOf(c), ClaimOf(zones, s, c)) ==> c.user in t.tombstones || !Live(t, KeyOf(c))
  {
  }

  // ---------- What a repeated request is answered ----------

  /** The same request again within a day, by a user whose account is not erased. */
  ghost predicate Repeats(zones: Zones, s: State, c: Call, between: seq<Action>, d: Call) {
    && TakesEffect(zones, s, c) && c.key != "" && SameRequest(c, d) && Fault(d).None?
    && Run(zones, After(zones, s, c), between).now < s.now + 86_400_000
    && c.user !in Run(zones, After(zones, s, c), between).tombstones
  }

  lemma RepeatIsReplayed(zones: Zones, s: State, c: Call, between: seq<Action>, d: Call)
    requires Repeats(zones, s, c, between, d)
    ensures var t := Run(zones, After(zones, s, c), between);
      ReplyTo(zones, t, d) == Replay(t, d, ReplyTo(zones, s, c))
  {
    ClaimIsFiled(zones, s, c);
    ClaimPersists(zones, After(zones, s, c), between, KeyOf(c), ClaimOf(zones, s, c));
  }

  /** A repeated PATCH gets the first reply exactly while the schedule is still the
      caller's, and is not found otherwise. */
  lemma UpdateReplaysWhileItExists(
    zones: Zones, s: State, c: Call, between: seq<Action>, d: Call)
    requires c.Update? && Repeats(zones, s, c, between, d)
    ensures var t := Run(zones, After(zones, s, c), between);
      ReplyTo(zones, t, d) ==
        if c.id in t.schedules && t.schedules[c.id].owner == c.user then ReplyTo(zones, s, c)
        else Refused(NotFound)
  {
    RepeatIsReplayed(zones, s, c, between, d);
  }

  /** A repeated deletion, of whatever kind, always gets the first reply. */
  lemma DeletionsAlwaysReplay(zones: Zones, s: State, c: Call, between: seq<Action>, d: Call)
    requires c.Delete? || c.DeleteFollowing? || c.BulkDelete? || c.DeleteReminder?
    requires Repeats(zones, s, c, between, d)
    ensures ReplyTo(zones, Run(zones, After(zones, s, c), between), d) == ReplyTo(zones, s, c)
    ensures ReplyTo(zones, s, c) == if c.BulkDelete? then RemovedMany(|c.ids|) else Removed
  {
    RepeatIsReplayed(zones, s, c, between, d);
  }

  /** A repeated reminder creation gets the first reply exactly while the schedule is
      the caller's and still has that reminder; else it is not found, or a conflict. */
  lemma ReminderReplaysWhileItExists(
    zones: Zones, s: State, c: Call, between: seq<Action>, d: Call)
    requires c.AddReminder? && Repeats(zones, s, c, between, d)
    ensures ReplyTo(zones, s, c).ReminderAdded?
    ensures var t, first := Run(zones, After(zones, s, c), between), ReplyTo(zones, s, c);
      ReplyTo(zones, t, d) ==
        if !(c.id in t.schedules && t.schedules[c.id].owner == c.user) then Refused(NotFound)
        else if exists i | 0 <= i < |t.schedules[c.id].reminders| ::
                  t.schedules[c.id].reminders[i].id == first.reminder.id
        then first else Refused(IdempotencyConflict)
  {
    RepeatIsReplayed(zones, s, c, between, d);
  }

  // ---------- Replaying a creation ----------

  lemma CreatedIsOwned(zones: Zones, s: State, c: Call)
    requires c.Create? && TakesEffect(zones, s, c)
    ensures var t := After(zones, s, c);
      && Owned(t, c.user, s.nextSchedule)
      && ReplyTo(zones, s, c) == Saved(s.nextSchedule, t.schedules[s.nextSchedule])
  {
    var e := Judge(zones, s, c).effect;
    assert e.changes[..0] == [];
    assert ApplyAll(s, e.changes[..0]) == s;
  }

  /** A repeated creation is answered as before exactly while the schedule that
      the first one answered with still exists. */
  lemma CreateReplaysWhileItExists(
    zones: Zones, s: State, c: Call, between: seq<Action>, d: Call)
    requires TakesEffect(zones, s, c) && c.key != "" && SameRequest(c, d)
    requires (c.Create? || c.CreateSeries?) && Fault(d).None?
    requires Run(zones, After(zones, s, c), between).now < s.now + 86_400_000
    requires c.user !in Run(zones, After(zones, s, c), between).tombstones
    ensures var t := Run(zones, After(zones, s, c), between);
      && ReplyTo(zones, s, c).Saved?
      && ReplyTo(zones, t, d) ==
         if Owned(t, c.user, ReplyTo(zones, s, c).id) then ReplyTo(zones, s, c)
         else Refused(IdempotencyConflict)
  {
    ClaimIsFiled(zones, s, c);
    ClaimPersists(zones, After(zones, s, c), between, KeyOf(c), ClaimOf(zones, s, c));
  }

  lemma DeletedIsGone(zones: Zones, s: State, user: nat, id: nat)
    requires TakesEffect(zones, s, Delete(user, "", id))
    ensures var t := After(zones, s, Delete(user, "", id));
      id !in t.schedules && t.now == s.now && t.tombstones == s.tombstones
  {
    var e := Judge(zones, s, Delete(user, "", id)).effect;
    assert e.changes[..0] == [];
    assert ApplyAll(s, e.changes[..0]) == s;
  }

  /** Replaying a creation after deleting what it created is a conflict, not a
      replay: for every creation, at once. */
  lemma ReplayAfterDeleteConflicts(zones: Zones, s: State, c: Call)
    requires c.Create? && TakesEffect(zones, s, c) && c.key != ""
    ensures var s1 := After(zones, s, c);
      var delete := Delete(c.user, "", s.nextSchedule);
      && TakesEffect(zones, s1, delete)
      && ReplyTo(zones, After(zones, s1, delete), c) == Refused(IdempotencyConflict)
  {
    CreatedIsOwned(zones, s, c);
    FrameOfCommit(s, Judge(zones, s, c).effect);
    var s1 := After(zones, s, c);
    var delete := Delete(c.user, "", s.nextSchedule);
    DeletedIsGone(zones, s1, c.user, s.nextSchedule);
    assert [Do(delete)][..0] == [];
    assert Run(zones, s1, [Do(delete)][..0]) == s1;
    assert Run(zones, s1, [Do(delete)]) == After(zones, s1, delete);
    CreateReplaysWhileItExists(zones, s, c, [Do(delete)], c);
  }

  // ---------- Expected revisions ----------

  /** The revision a conditional write insists on. */
  function Expected(c: Call): Option<int> {
    match c
    case Update(_, _, _, patch, _) => patch.expectedRevision
    case DeleteFollowing(_, _, _, expected, _) => Some(expected)
    case _ => None
  }

  /** The schedule has moved past revision `r`, or is gone for good. */
  ghost predicate Past(s: State, id: nat, r: int) {
    id < s.nextSchedule && (id in s.schedules ==> s.schedules[id].revision > r)
  }

  lemma {:induction false} ChangesPast(s: State, user: nat, cs: seq<Change>, id: nat, r: int)
    requires ValidAll(s, user, cs) && Past(s, id, r)
    ensures Past(ApplyAll(s, cs), id, r)
  {
    if cs != [] {
      ChangesPast(s, user, cs[..|cs| - 1], id, r);
    }
  }

  lemma CommitPast(zones: Zones, s: State, c: Call, e: Effect, id: nat, r: int)
    requires Fault(c).None? && Plan(zones, s, c) == Ok(e) && Inv(s) && Past(s, id, r)
    ensures Past(Commit(s, e), id, r)
  {
    PlanIsValid(zones, s, c);
    ChangesPast(AddSeries(s, e.newSeries), c.user, e.changes, id, r);
  }

  lemma ActPast(zones: Zones, s: State, a: Action, id: nat, r: int)
    requires Inv(s) && Past(s, id, r)
    ensures Past(Act(zones, s, a), id, r)
  {
    if a.Do? && Judge(zones, s, a.call).Applied? {
      CommitPast(zones, s, a.call, Judge(zones, s, a.call).effect, id, r);
    }
  }

  lemma {:induction false} RunPast(
    zones: Zones, s: State, actions: seq<Action>, id: nat, r: int)
    requires Inv(s) && Past(s, id, r)
    ensures Past(Run(zones, s, actions), id, r)
  {
    if actions != [] {
      var n := |actions| - 1;
      RunPast(zones, s, actions[..n], id, r);
      RunInv(zones, s, actions[..n]);
      ActPast(zones, Run(zones, s, actions[..n]), actions[n], id, r);
    }
  }

  lemma {:induction false} ChangedIsPast(
    s: State, user: nat, cs: seq<Change>, i: nat, id: nat, r: int)
    requires ValidAll(s, user, cs) && i < |cs| && !cs[i].Add? && cs[i].id == id
    requires id in s.schedules && id < s.nextSchedule && s.schedules[id].revision >= r
    ensures Past(ApplyAll(s, cs), id, r)
  {
    var n := |cs| - 1;
    if i < n {
      ChangedIsPast(s, user, cs[..n], i, id, r);
    } else {
      RevisionsGrow(s, user, cs[..n], id, r);
    }
  }

  lemma {:induction false} RevisionsGrow(s: State, user: nat, cs: seq<Change>, id: nat, r: int)
    requires ValidAll(s, user, cs)
    requires id < s.nextSchedule && (id in s.schedules ==> s.schedules[id].revision >= r)
    ensures var t := ApplyAll(s, cs);
      id < t.nextSchedule && (id in t.schedules ==> t.schedules[id].revision >= r)
  {
    if cs != [] {
      RevisionsGrow(s, user, cs[..|cs| - 1], id, r);
    }
  }

  /** The changes touch the schedule. */
  ghost predicate Touches(cs: seq<Change>, id: nat) {
    exists i :: 0 <= i < |cs| && !cs[i].Add? && cs[i].id == id
  }

  /** The selected schedule is among those a following-scope call targets. */
  lemma SelectedIsTarget(s: State, id: nat) returns (i: nat)
    requires Placed(s) && id in s.schedules && s.schedules[id].slot.Some?
    ensures var targets := Later(s, s.schedules[id].slot.value);
      i < |targets| && targets[i] == id
  {
    var slot := s.schedules[id].slot.value;
    assert Seated(s, s.schedules[id]);
    TargetsComplete(s.schedules, slot.series, slot.index, MAX_OCCURRENCES, id);
    i :| 0 <= i < |Later(s, slot)| && Later(s, slot)[i] == id;
  }

  lemma UpdateTouches(zones: Zones, s: State, c: Call, e: Effect)
    requires c.Update? && Fault(c).None? && Plan(zones, s, c) == Ok(e) && Placed(s)
    ensures Touches(e.changes, c.id)
  {
    if c.patch.scope == Following {
      var i := SelectedIsTarget(s, c.id);
      var merged := Validated(Merge(zones, s.schedules[c.id].fields, c.patch)).value;
      FollowingShape(
        zones, s, c.id, merged, c.patch, Later(s, s.schedules[c.id].slot.value));
      assert e.changes[i].id == c.id;
    } else {
      assert e.changes[0].id == c.id;
    }
  }

  lemma DeleteFollowingTouches(s: State, user: nat, id: nat, expected: int, e: Effect)
    requires PlanDeleteFollowing(s, user, id, expected) == Ok(e) && Placed(s)
    ensures Touches(e.changes, id)
  {
    var i := SelectedIsTarget(s, id);
    assert e.changes[i].id == id;
  }

  /** The selected schedule is among those a conditional write changes. */
  lemma ConditionalTouches(zones: Zones, s: State, c: Call, e: Effect)
    requires Fault(c).None? && Plan(zones, s, c) == Ok(e) && Placed(s)
    requires c.Update? || c.DeleteFollowing?
    ensures Touches(e.changes, c.id)
  {
    if c.Update? {
      UpdateTouches(zones, s, c, e);
    } else {
      DeleteFollowingTouches(s, c.user, c.id, c.expected, e);
    }
  }

  lemma ConditionalMatches(zones: Zones, s: State, c: Call, e: Effect)
    requires Fault(c).None? && Plan(zones, s, c) == Ok(e) && Expected(c).Some?
    ensures c.id in s.schedules && s.schedules[c.id].revision == Expected(c).value
  {
  }

  lemma ConditionalPast(zones: Zones, s: State, c: Call, e: Effect)
    requires Fault(c).None? && Plan(zones, s, c) == Ok(e) && Expected(c).Some? && Inv(s)
    ensures Past(Commit(s, e), c.id, Expected(c).value)
  {
    ConditionalMatches(zones, s, c, e);
    ConditionalTouches(zones, s, c, e);
    PlanIsValid(zones, s, c);
    var i :| 0 <= i < |e.changes| && !e.changes[i].Add? && e.changes[i].id == c.id;
    ChangedIsPast(
      AddSeries(s, e.newSeries), c.user, e.changes, i, c.id, Expected(c).value);
  }

  lemma EffectPast(zones: Zones, s: State, c: Call)
    requires Inv(s) && TakesEffect(zones, s, c) && Expected(c).Some?
    ensures Past(After(zones, s, c), c.id, Expected(c).value)
  {
    ConditionalPast(zones, s, c, Judge(zones, s, c).effect);
  }

  lemma PastRefuses(zones: Zones, s: State, c: Call)
    requires Expected(c).Some? && Past(s, c.id, Expected(c).value)
    ensures !TakesEffect(zones, s, c)
  {
    if TakesEffect(zones, s, c) {
      ConditionalMatches(zones, s, c, Judge(zones, s, c).effect);
    }
  }

  lemma LaterIsRefused(zones: Zones, s: State, c: Call, between: seq<Action>, d: Call)
    requires Inv(s) && TakesEffect(zones, s, c)
    requires Expected(c).Some? && Expected(d) == Expected(c) && d.id == c.id
    ensures !TakesEffect(zones, Run(zones, After(zones, s, c), between), d)
  {
    EffectPast(zones, s, c);
    AfterInv(zones, s, c);
    RunPast(zones, After(zones, s, c), between, c.id, Expected(c).value);
    PastRefuses(zones, Run(zones, After(zones, s, c), between), d);
  }

  /** Of all calls in a run that expect the same revision of one schedule, at most
      one takes effect. */
  lemma AtMostOneSucceeds(
    zones: Zones, before: seq<Action>, c: Call, between: seq<Action>, d: Call)
    requires Expected(c).Some? && Expected(d) == Expected(c) && d.id == c.id
    requires TakesEffect(zones, Run(zones, Empty(), before), c)
    ensures !TakesEffect(zones, Run(zones, Empty(), before + [Do(c)] + between), d)
  {
    var first := before + [Do(c)];
    assert first[..|first| - 1] == before;
    RunAppend(zones, Empty(), first, between);
    EmptyInv();
    RunInv(zones, Empty(), before);
    LaterIsRefused(zones, Run(zones, Empty(), before), c, between, d);
  }

  // ---------- The early answer to a repeated PATCH ----------

  /** ReplayScheduleUpdate: `Ok(None)` if there is nothing to replay. */
  function ReplayUpdate(s: State, user: nat, id: nat, key: string, hash: nat)
    : Result<Option<Reply>, Error>
  {
    var k := ClaimKey(user, UpdateOp, key);
    if key == "" || !Live(s, k) then Ok(None)
    else if s.claims[k].subject != id || s.claims[k].digest != OfBytes(hash)
    then Err(IdempotencyConflict)
    else if !Owned(s, user, id) then Err(NotFound)
    else Ok(Some(s.claims[k].answer))
  }

  /** The early answer is what the full update would have answered, and such an
      update would have changed nothing. */
  lemma ReplayAgrees(zones: Zones, s: State, user: nat, key: string, id: nat, patch: Patch, hash: nat)
    requires Inv(s) && patch.scope != OtherScope
    ensures var c := Update(user, key, id, patch, hash);
      match ReplayUpdate(s, user, id, key, hash)
      case Ok(None) => user in s.tombstones || key == "" || !Live(s, KeyOf(c))
      case Ok(Some(reply)) => ReplyTo(zones, s, c) == reply && After(zones, s, c) == s
      case Err(error) => ReplyTo(zones, s, c) == Refused(error) && After(zones, s, c) == s
  {
    assert user in s.tombstones ==> OwnsNothing(s, user);
  }
}
