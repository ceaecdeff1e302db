/**
 Nothing is ever lost for good: from every reachable state of the pipeline there
 is a way to publish everything.
 */
module Recovery {
  import opened Prelude
  import opened Patching
  import Ledger
  import Outbox
  import opened Runs
  import opened Replica
  import opened Delivery

  ghost function Onward(zones: Zones, window: nat, w: World, events: seq<Event>): World {
    if events == [] then w
    else
      Next(zones, window, Onward(zones, window, w, events[..|events| - 1]), events[|events| - 1])
  }

  lemma {:induction false} OnwardAppend(
    zones: Zones, window: nat, w: World, a: seq<Event>, b: seq<Event>)
    ensures Onward(zones, window, w, a + b) == Onward(zones, window, Onward(zones, window, w, a), b)
  {
    if b == [] {
      assert a + b == a;
    } else {
      var n := |b| - 1;
      assert (a + b)[..|a + b| - 1] == a + b[..n];
      OnwardAppend(zones, window, w, a, b[..n]);
    }
  }

  lemma {:induction false} HistoryIsOnward(zones: Zones, window: nat, a: seq<Event>, b: seq<Event>)
    ensures History(zones, window, a + b) == Onward(zones, window, History(zones, window, a), b)
  {
    if b == [] {
      assert a + b == a;
    } else {
      var n := |b| - 1;
      assert (a + b)[..|a + b| - 1] == a + b[..n];
      HistoryIsOnward(zones, window, a, b[..n]);
    }
  }

  // ---------- One row after the other ----------

  /** One turn of the worker: claim, publish, mark. */
  function Turn(worker: nat, row: nat): seq<Event> {
    [Take(worker, row)] + [Publish(worker, Outbox.Accepted)] + [Settle(worker)]
  }

  function Turns(worker: nat, rows: seq<nat>): seq<Event> {
    if rows == [] then [] else Turns(worker, rows[..|rows| - 1]) + Turn(worker, rows[|rows| - 1])
  }

  lemma OnwardOne(zones: Zones, window: nat, w: World, e: Event)
    ensures Onward(zones, window, w, [e]) == Next(zones, window, w, e)
  {
    assert [e][..0] == [];
  }

  lemma TurnDrains(zones: Zones, window: nat, w: World, worker: nat, row: nat)
    ensures Onward(zones, window, w, Turn(worker, row)) ==
      w.(dispatch := Outbox.Drained(w.dispatch, window, row, worker))
  {
    var a, b, c := Take(worker, row), Publish(worker, Outbox.Accepted), Settle(worker);
    OnwardAppend(zones, window, w, [a] + [b], [c]);
    OnwardAppend(zones, window, w, [a], [b]);
    OnwardOne(zones, window, w, a);
    var w1 := Next(zones, window, w, a);
    OnwardOne(zones, window, w1, b);
    OnwardOne(zones, window, Next(zones, window, w1, b), c);
  }

  /** The worker is idle, and every row is published or can be claimed. */
  ghost predicate Poised(d: Outbox.Dispatch, worker: nat) {
    worker !in d.jobs && Outbox.Ready(d)
  }

  ghost predicate AllDone(d: Outbox.Dispatch, rows: seq<nat>) {
    forall i | 0 <= i < |rows| :: Outbox.Done(d, rows[i])
  }

  lemma {:induction false} TurnsDrain(
    zones: Zones, window: nat, w: World, worker: nat, rows: seq<nat>)
    requires Poised(w.dispatch, worker)
    ensures var t := Onward(zones, window, w, Turns(worker, rows));
      && t.db == w.db && Poised(t.dispatch, worker) && AllDone(t.dispatch, rows)
      && t.dispatch.table.Keys == w.dispatch.table.Keys
  {
    if rows != [] {
      var before, last := rows[..|rows| - 1], rows[|rows| - 1];
      TurnsDrain(zones, window, w, worker, before);
      OnwardAppend(zones, window, w, Turns(worker, before), Turn(worker, last));
      var t := Onward(zones, window, w, Turns(worker, before));
      TurnDrains(zones, window, t, worker, last);
      AllDoneNext(t.dispatch, window, worker, before, last);
      assert rows == before + [last];
    }
  }

  lemma AllDoneNext(d: Outbox.Dispatch, window: nat, worker: nat, rows: seq<nat>, last: nat)
    requires Poised(d, worker) && AllDone(d, rows)
    ensures var t := Outbox.Drained(d, window, last, worker);
      Poised(t, worker) && AllDone(t, rows + [last]) && t.table.Keys == d.table.Keys
  {
    Outbox.DrainOne(d, window, last, worker);
    var t := Outbox.Drained(d, window, last, worker);
    forall i | 0 <= i < |rows|
      ensures Outbox.Done(t, rows[i])
    {
      assert Outbox.Done(d, rows[i]);
    }
  }

  // ---------- The wait before ----------

  function Pause(): Event { Serve(Ledger.Tick(Outbox.MAX_BACKOFF)) }

  lemma PauseMakesReady(zones: Zones, window: nat, w: World)
    requires Delivery.Inv(w, window)
    ensures var t := Next(zones, window, w, Pause());
      && t.db == w.db.(now := w.db.now + Outbox.MAX_BACKOFF)
      && Outbox.Ready(t.dispatch) && t.dispatch.jobs == w.dispatch.jobs
      && t.dispatch.table == w.dispatch.table
  {
    var s := w.db;
    var t := Ledger.Act(zones, s, Ledger.Tick(Outbox.MAX_BACKOFF));
    PauseFollows(w.dispatch, window, s, t);
    Outbox.ReadyAfterTheWait(w.dispatch, window, Follow(w.dispatch, window, s, t));
  }

  lemma PauseFollows(d: Outbox.Dispatch, window: nat, s: Ledger.State, t: Ledger.State)
    requires Coupled(s, d) && s.now <= t.now && t.outbox == s.outbox
    ensures Follow(d, window, s, t) == d.(now := d.now + (t.now - s.now))
  {
    assert Added(s, t) == [];
    assert Inserts([]) == [];
    var gone := set row | row in d.table && !Lists(t.outbox, row);
    assert gone == {};
    assert d.table - gone == d.table;
  }

  // ---------- Everything gets out ----------

  function RowIds(outbox: seq<Ledger.OutboxRow>): (ids: seq<nat>)
    ensures |ids| == |outbox|
  {
    seq(|outbox|, i requires 0 <= i < |outbox| => outbox[i].id)
  }

  lemma DoneIsPublished(w: World, user: nat)
    requires AllDone(w.dispatch, RowIds(w.db.outbox))
    requires forall i | 0 <= i < |w.db.outbox| :: w.db.outbox[i].id in w.dispatch.table
    ensures AllPublished(w, user)
  {
    forall i | 0 <= i < |w.db.outbox|
      ensures Outbox.Done(w.dispatch, w.db.outbox[i].id)
    {
      assert RowIds(w.db.outbox)[i] == w.db.outbox[i].id;
    }
  }

  /** After the wait, one idle worker that takes a turn for every row is done. */
  lemma TurnsPublishAll(zones: Zones, window: nat, w: World, worker: nat)
    requires Poised(w.dispatch, worker)
    requires forall i | 0 <= i < |w.db.outbox| :: w.db.outbox[i].id in w.dispatch.table
    ensures var t := Onward(zones, window, w, Turns(worker, RowIds(w.db.outbox)));
      t.db == w.db && forall user: nat :: AllPublished(t, user)
  {
    TurnsDrain(zones, window, w, worker, RowIds(w.db.outbox));
    var t := Onward(zones, window, w, Turns(worker, RowIds(w.db.outbox)));
    forall user: nat
      ensures AllPublished(t, user)
    {
      DoneIsPublished(t, user);
    }
  }

  /** From a world in order: wait, then publish everything. */
  lemma WaitAndPublish(zones: Zones, window: nat, w: World) returns (more: seq<Event>)
    requires Delivery.Inv(w, window)
    ensures var t := Onward(zones, window, w, more);
      && t.db == w.db.(now := w.db.now + Outbox.MAX_BACKOFF)
      && forall user: nat :: AllPublished(t, user)
  {
    var worker := MissingOne(0, |w.dispatch.jobs.Keys| + 1, w.dispatch.jobs.Keys);
    PauseMakesReady(zones, window, w);
    var t := Next(zones, window, w, Pause());
    TurnsPublishAll(zones, window, t, worker);
    var turns := Turns(worker, RowIds(t.db.outbox));
    more := [Pause()] + turns;
    OnwardAppend(zones, window, w, [Pause()], turns);
    OnwardOne(zones, window, w, Pause());
  }

  /** From every reachable world some continuation publishes every row of every user
      and changes nothing in the ledger but the time. */
  lemma EverythingGetsOut(zones: Zones, window: nat, events: seq<Event>)
    returns (more: seq<Event>)
    ensures var w, t := History(zones, window, events), History(zones, window, events + more);
      && t.db == w.db.(now := w.db.now + Outbox.MAX_BACKOFF)
      && forall user: nat :: AllPublished(t, user)
  {
    HistoryKeeps(zones, window, events);
    more := WaitAndPublish(zones, window, History(zones, window, events));
    HistoryIsOnward(zones, window, events, more);
  }

  /** Hence the truth is always within reach: from every reachable world some
      continuation brings every subscriber who reads on to exactly the schedules the
      user has now. */
  lemma TruthIsAlwaysInReach(zones: Zones, window: nat, events: seq<Event>, user: nat)
    returns (more: seq<Event>)
    requires user !in History(zones, window, events).db.tombstones
    ensures var w, t := History(zones, window, events), History(zones, window, events + more);
      forall received | Received(received, t.dispatch, user) :: Mirrors(Fold(received), w.db, user)
  {
    more := EverythingGetsOut(zones, window, events);
    var w, t := History(zones, window, events), History(zones, window, events + more);
    forall received | Received(received, t.dispatch, user)
      ensures Mirrors(Fold(received), w.db, user)
    {
      SubscribersSeeTheTruth(zones, window, events + more, user, received);
      SameSchedulesMirrored(Fold(received), t.db, w.db, user);
    }
  }

  lemma SameSchedulesMirrored(
    m: map<nat, Ledger.Event>, s: Ledger.State, t: Ledger.State, user: nat)
    requires Mirrors(m, s, user) && t.schedules == s.schedules
    ensures Mirrors(m, t, user)
  {
    forall id: nat
      ensures id in m && !m[id].body.Deleted? <==> Ledger.Owned(t, user, id)
      ensures Ledger.Owned(t, user, id) && id in m ==> Journal.Tells(m[id], t.schedules[id])
    {
      assert Ledger.Owned(t, user, id) <==> Ledger.Owned(s, user, id);
    }
  }
}
