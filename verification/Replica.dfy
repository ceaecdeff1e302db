/**
 What a subscriber can rebuild from the event stream, and why the broker's
 deduplication never swallows an event.
 */
module Replica {
  import opened Patching
  import opened Ledger
  import opened Journal
  import opened Erasure
  import opened Runs

  // ---------- Highest revision wins ----------

  /** Keep the event with the highest revision seen for each schedule. */
  function Absorb(m: map<nat, Event>, e: Event): map<nat, Event> {
    if e.schedule in m && m[e.schedule].revision >= e.revision then m else m[e.schedule := e]
  }

  function Fold(events: seq<Event>): map<nat, Event> {
    if events == [] then map[]
    else Absorb(Fold(events[..|events| - 1]), events[|events| - 1])
  }

  /** The subscriber's own loop. */
  method Replay(events: seq<Event>) returns (m: map<nat, Event>)
    ensures m == Fold(events)
  {
    m := map[];
    var i := 0;
    while i < |events|
      invariant 0 <= i <= |events| && m == Fold(events[..i])
    {
      assert events[..i + 1][..i] == events[..i];
      var e := events[i];
      if !(e.schedule in m && m[e.schedule].revision >= e.revision) {
        m := m[e.schedule := e];
      }
      i := i + 1;
    }
    assert events[..i] == events;
  }

  lemma {:induction false} FoldIsTheNewest(events: seq<Event>, id: nat)
    ensures id in Fold(events) ==> Fold(events)[id] in events && Fold(events)[id].schedule == id
    ensures forall e | e in events && e.schedule == id ::
      id in Fold(events) && e.revision <= Fold(events)[id].revision
  {
    if events != [] {
      var n := |events| - 1;
      FoldIsTheNewest(events[..n], id);
      assert events == events[..n] + [events[n]];
    }
  }

  // ---------- The rebuilt view ----------

  /** The delivered events are the user's outbox events: each at least once, in any
      order, and nothing else. */
  ghost predicate Delivers(delivered: seq<Event>, s: State, user: nat) {
    && (forall e | e in delivered :: exists i :: 0 <= i < |s.outbox| && s.outbox[i].event == e)
    && (forall e | e in delivered :: e.owner == user)
    && (forall i | 0 <= i < |s.outbox| && s.outbox[i].event.owner == user ::
          s.outbox[i].event in delivered)
  }

  /** The replica shows exactly the user's live schedules, each as it is now. */
  ghost predicate Mirrors(m: map<nat, Event>, s: State, user: nat) {
    forall id: nat ::
      && (id in m && !m[id].body.Deleted? <==> Owned(s, user, id))
      && (Owned(s, user, id) && id in m ==> Tells(m[id], s.schedules[id]))
  }

  lemma {:induction false} HistoryIsOutbox(outbox: seq<OutboxRow>, id: nat, e: Event)
    ensures e in History(outbox, id) <==>
      e.schedule == id && exists i :: 0 <= i < |outbox| && outbox[i].event == e
  {
    if outbox != [] {
      var n := |outbox| - 1;
      var rest := outbox[..n];
      HistoryIsOutbox(rest, id, e);
      assert forall i | 0 <= i < n :: rest[i] == outbox[i];
      if e.schedule == id && exists i :: 0 <= i < |outbox| && outbox[i].event == e {
        var i :| 0 <= i < |outbox| && outbox[i].event == e;
        assert i < n ==> rest[i].event == e;
      }
    }
  }

  lemma FoldIsTheLast(delivered: seq<Event>, s: State, user: nat, id: nat)
    requires Delivers(delivered, s, user) && Chronicle(s, id)
    ensures var h := History(s.outbox, id);
      if h != [] && h[0].owner == user
      then id in Fold(delivered) && Fold(delivered)[id] == h[|h| - 1]
      else id !in Fold(delivered)
  {
    var h, m := History(s.outbox, id), Fold(delivered);
    FoldIsTheNewest(delivered, id);
    if id in m {
      HistoryIsOutbox(s.outbox, id, m[id]);
      var k :| 0 <= k < |h| && h[k] == m[id];
      assert h[k].owner == h[0].owner;
    }
    if h != [] && h[0].owner == user {
      var last := h[|h| - 1];
      assert last.owner == user;
      HistoryIsOutbox(s.outbox, id, last);
      var i :| 0 <= i < |s.outbox| && s.outbox[i].event == last;
      assert last in delivered;
      assert last.revision <= m[id].revision;
    }
  }

  /** Whatever the order and however often each event is delivered, the replica of
      a user's events mirrors their schedules. */
  lemma AnyOrderRebuilds(s: State, user: nat, delivered: seq<Event>)
    requires Inv(s) && Delivers(delivered, s, user)
    ensures Mirrors(Fold(delivered), s, user)
  {
    var m := Fold(delivered);
    forall id: nat
      ensures id in m && !m[id].body.Deleted? <==> Owned(s, user, id)
      ensures Owned(s, user, id) && id in m ==> Tells(m[id], s.schedules[id])
    {
      assert Chronicle(s, id);
      FoldIsTheLast(delivered, s, user, id);
      var h := History(s.outbox, id);
      assert h != [] ==> h[|h| - 1].owner == h[0].owner;
    }
  }

  // ---------- Deduplication ----------

  datatype Subject = SchedulesCreated | SchedulesUpdated | SchedulesDeleted

  /** The serialised event; its kind is not in it. */
  datatype Payload =
    | ScheduleEvent(schedule: nat, owner: nat, revision: nat, occurredAt: int, snapshot: Snapshot)
    | ScheduleDeleted(schedule: nat, owner: nat, revision: nat, occurredAt: int)

  /** The message id, the payload's hash taken as injective. */
  datatype MessageId = MessageId(subject: Subject, schedule: nat, occurredAt: int, payload: Payload)

  function PayloadOf(e: Event): Payload {
    if e.body.Deleted? then ScheduleDeleted(e.schedule, e.owner, e.revision, e.occurredAt)
    else ScheduleEvent(e.schedule, e.owner, e.revision, e.occurredAt, e.body.snapshot)
  }

  function SubjectOf(e: Event): Subject {
    match e.body
    case Created(_) => SchedulesCreated
    case Updated(_) => SchedulesUpdated
    case Deleted => SchedulesDeleted
  }

  /** publishData: a function of the stored row alone, so every retry repeats it. */
  function MessageIdOf(e: Event): MessageId {
    MessageId(SubjectOf(e), e.schedule, e.occurredAt, PayloadOf(e))
  }

  lemma MessageIdTells(e: Event, f: Event)
    ensures MessageIdOf(e) == MessageIdOf(f) <==> e == f
  {
  }

  /** Rows leave the outbox only when their owner's account is erased. */
  lemma ActKeepsRows(zones: Zones, s: State, a: Action, o: OutboxRow)
    requires Inv(s) && o in s.outbox
    ensures o in Act(zones, s, a).outbox || o.event.owner in Act(zones, s, a).tombstones
  {
    match a
    case Do(c) =>
      var v := Judge(zones, s, c);
      if v.Applied? {
        FrameOfCommit(s, v.effect);
        var i :| 0 <= i < |s.outbox| && s.outbox[i] == o;
        assert Act(zones, s, a).outbox[i] == o;
      }
    case EraseAccount(user) =>
      if o.event.owner != user {
        EraseSparesOthers(s, user, o.event.owner);
      }
    case _ =>
  }

  lemma {:induction false} RunKeepsRows(zones: Zones, s: State, actions: seq<Action>, o: OutboxRow)
    requires Inv(s) && o in s.outbox
    ensures o in Run(zones, s, actions).outbox || o.event.owner in Run(zones, s, actions).tombstones
  {
    if actions != [] {
      var n := |actions| - 1;
      RunKeepsRows(zones, s, actions[..n], o);
      RunInv(zones, s, actions[..n]);
      var t := Run(zones, s, actions[..n]);
      TombstonesStay(zones, t, actions[n]);
      if o in t.outbox {
        ActKeepsRows(zones, t, actions[n], o);
      }
    }
  }

  lemma RowsDiffer(s: State, a: OutboxRow, b: OutboxRow)
    requires Inv(s) && a in s.outbox && b in s.outbox && a != b
    ensures a.event != b.event
  {
    var i :| 0 <= i < |s.outbox| && s.outbox[i] == a;
    var j :| 0 <= j < |s.outbox| && s.outbox[j] == b;
    if a.event.schedule == b.event.schedule {
      assert Chronicle(s, a.event.schedule);
      if i < j {
        RevisionsDiffer(s.outbox, a.event.schedule, i, j);
      } else {
        RevisionsDiffer(s.outbox, a.event.schedule, j, i);
      }
    }
  }

  /** Two different rows of a run, even if one was erased before the other was
      written, never carry the same message id. */
  lemma MessageIdsNeverClash(
    zones: Zones, before: seq<Action>, later: seq<Action>, a: OutboxRow, b: OutboxRow)
    requires a in Run(zones, Empty(), before).outbox
    requires b in Run(zones, Empty(), before + later).outbox
    requires a != b
    ensures MessageIdOf(a.event) != MessageIdOf(b.event)
  {
    EmptyInv();
    RunInv(zones, Empty(), before);
    RunInv(zones, Empty(), before + later);
    RunAppend(zones, Empty(), before, later);
    var t := Run(zones, Empty(), before + later);
    RunKeepsRows(zones, Run(zones, Empty(), before), later, a);
    MessageIdTells(a.event, b.event);
    if a in t.outbox {
      RowsDiffer(t, a, b);
    } else {
      assert OwnsNothing(t, a.event.owner);
      var j :| 0 <= j < |t.outbox| && t.outbox[j] == b;
    }
  }
}
