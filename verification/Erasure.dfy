/**
 Account erasure is final: an erased user owns nothing, for good, and nobody
 else loses anything.
 */
module Erasure {
  import opened Prelude
  import opened Patching
  import opened Ledger
  import opened Changes
  import opened Structure
  import opened Journal

  /** No row of any table belongs to the user. */
  ghost predicate OwnsNothing(s: State, user: nat) {
    && (forall id | id in s.schedules :: s.schedules[id].owner != user)
    && (forall k | k in s.series :: s.series[k].owner != user)
    && (forall k | k in s.claims :: k.user != user)
    && (forall k | k in s.aiRows :: s.aiRows[k] != user)
    && (forall i | 0 <= i < |s.outbox| :: s.outbox[i].event.owner != user)
  }

  ghost predicate Absorbed(s: State) {
    forall user | user in s.tombstones :: OwnsNothing(s, user)
  }

  lemma ChangeByAnother(s: State, user: nat, c: Change, erased: nat)
    requires Valid(s, user, c) && OwnsNothing(s, erased) && user != erased
    ensures OwnsNothing(Apply(s, c), erased)
  {
    var t := Apply(s, c);
    assert t.outbox == s.outbox + [OutboxRow(s.nextEvent, EventOf(s, c))];
    forall id | id in t.schedules
      ensures t.schedules[id].owner != erased
    {
    }
  }

  lemma {:induction false} ChangesByAnother(s: State, user: nat, cs: seq<Change>, erased: nat)
    requires ValidAll(s, user, cs) && OwnsNothing(s, erased) && user != erased
    ensures OwnsNothing(ApplyAll(s, cs), erased)
  {
    if cs != [] {
      ChangesByAnother(s, user, cs[..|cs| - 1], erased);
      ChangeByAnother(ApplyAll(s, cs[..|cs| - 1]), user, cs[|cs| - 1], erased);
    }
  }

  /** A new series belongs to the caller. */
  lemma SeriesOwner(zones: Zones, s: State, c: Call, e: Effect)
    requires Fault(c).None? && Plan(zones, s, c) == Ok(e)
    ensures e.newSeries.Some? ==> e.newSeries.value.owner == c.user
  {
  }

  /** Another user's call brings no row to an erased user. */
  lemma CommitByAnother(zones: Zones, s: State, c: Call, e: Effect, erased: nat)
    requires Fault(c).None? && Plan(zones, s, c) == Ok(e) && Sound(s)
    requires OwnsNothing(s, erased) && c.user != erased
    ensures OwnsNothing(Commit(s, e), erased)
  {
    PlanIsValid(zones, s, c);
    SeriesOwner(zones, s, c, e);
    ChangesByAnother(AddSeries(s, e.newSeries), c.user, e.changes, erased);
  }

  lemma {:induction false} UnconcernedOwner(s: State, user: nat, outbox: seq<OutboxRow>)
    ensures forall o | o in Unconcerned(s, user, outbox) :: o in outbox && !Concerns(s, user, o)
    ensures forall o | o in outbox && !Concerns(s, user, o) :: o in Unconcerned(s, user, outbox)
  {
    if outbox != [] {
      var n := |outbox| - 1;
      UnconcernedOwner(s, user, outbox[..n]);
      assert outbox == outbox[..n] + [outbox[n]];
    }
  }

  /** Cleanup leaves the user with nothing. */
  lemma EraseTakesAll(s: State, user: nat)
    ensures user in Erase(s, user).tombstones && OwnsNothing(Erase(s, user), user)
  {
    UnconcernedOwner(s, user, s.outbox);
    var t := Erase(s, user);
    forall i | 0 <= i < |t.outbox|
      ensures t.outbox[i].event.owner != user
    {
      assert t.outbox[i] in t.outbox;
    }
  }

  lemma EraseKeepsAbsence(s: State, user: nat, erased: nat)
    requires OwnsNothing(s, erased)
    ensures OwnsNothing(Erase(s, user), erased)
  {
    UnconcernedOwner(s, user, s.outbox);
    var t := Erase(s, user);
    forall i | 0 <= i < |t.outbox|
      ensures t.outbox[i].event.owner != erased
    {
      assert t.outbox[i] in s.outbox;
    }
  }

  /** The schedule of an event belongs to the event's owner. */
  lemma EventOwner(s: State, i: nat)
    requires i < |s.outbox| && Chronicle(s, s.outbox[i].event.schedule)
    ensures var e := s.outbox[i].event;
      e.schedule in s.schedules ==> s.schedules[e.schedule].owner == e.owner
  {
    var e := s.outbox[i].event;
    HistoryHolds(s.outbox, i);
    var h := History(s.outbox, e.schedule);
    var k :| 0 <= k < |h| && h[k] == e;
    assert h[|h| - 1].owner == h[0].owner == h[k].owner;
  }

  /** Cleanup takes nothing from anybody else, in any table. */
  lemma EraseSparesOthers(s: State, user: nat, other: nat)
    requires other != user && forall id: nat :: Chronicle(s, id)
    ensures var t := Erase(s, user);
      && (forall id | id in s.schedules && s.schedules[id].owner == other ::
            id in t.schedules && t.schedules[id] == s.schedules[id])
      && (forall k | k in s.series && s.series[k].owner == other ::
            k in t.series && t.series[k] == s.series[k])
      && (forall k | k in s.claims && k.user == other ::
            k in t.claims && t.claims[k] == s.claims[k])
      && (forall k | k in s.aiRows && s.aiRows[k] == other ::
            k in t.aiRows && t.aiRows[k] == other)
      && (forall o | o in s.outbox && o.event.owner == other :: o in t.outbox)
      && (other in t.tombstones <==> other in s.tombstones)
  {
    UnconcernedOwner(s, user, s.outbox);
    forall o | o in s.outbox && o.event.owner == other
      ensures !Concerns(s, user, o)
    {
      var i :| 0 <= i < |s.outbox| && s.outbox[i] == o;
      EventOwner(s, i);
    }
  }

  lemma {:induction false} UnconcernedAll(s: State, user: nat, outbox: seq<OutboxRow>)
    requires forall i | 0 <= i < |outbox| :: !Concerns(s, user, outbox[i])
    ensures Unconcerned(s, user, outbox) == outbox
  {
    if outbox != [] {
      UnconcernedAll(s, user, outbox[..|outbox| - 1]);
    }
  }

  /** Cleaning up twice is cleaning up once. */
  lemma EraseTwice(s: State, user: nat)
    ensures Erase(Erase(s, user), user) == Erase(s, user)
  {
    EraseTakesAll(s, user);
    var t := Erase(s, user);
    UnconcernedAll(t, user, t.outbox);
    assert Erase(t, user).tombstones == t.tombstones;
    assert Erase(t, user).claims == t.claims;
    assert Erase(t, user).series == t.series;
    assert Erase(t, user).aiRows == t.aiRows;
    assert Erase(t, user).schedules == t.schedules;
  }

  /** Every call of an erased user is refused and changes nothing. */
  lemma ErasedIsRefused(zones: Zones, s: State, c: Call)
    requires c.user in s.tombstones
    ensures After(zones, s, c) == s && ReplyTo(zones, s, c).Refused?
  {
  }
}
