/**
 The whole pipeline: calls write the ledger and its outbox in one transaction,
 workers carry the outbox to the broker, subscribers read the broker's stream.
 */
module Delivery {
  import opened Patching
  import Ledger
  import Structure
  import Erasure
  import opened Runs
  import opened Replica
  import Outbox

  type Dispatch = Outbox.Dispatch

  datatype World = World(db: Ledger.State, dispatch: Dispatch)

  datatype Event =
    | Serve(action: Ledger.Action)
    | Take(worker: nat, row: nat)
    | Publish(worker: nat, fate: Outbox.Fate)
    | Settle(worker: nat)
    | Crash(worker: nat)

  function Inserts(rows: seq<Ledger.OutboxRow>): (steps: seq<Outbox.Step>)
    ensures |steps| == |rows|
  {
    seq(|rows|, i requires 0 <= i < |rows| => Outbox.Insert(rows[i].id, rows[i].event))
  }

  function Added(s: Ledger.State, t: Ledger.State): seq<Ledger.OutboxRow> {
    if s.outbox <= t.outbox then t.outbox[|s.outbox|..] else []
  }

  ghost predicate Lists(outbox: seq<Ledger.OutboxRow>, row: nat) {
    exists i | 0 <= i < |outbox| :: outbox[i].id == row
  }

  /** What a ledger action does to the dispatcher's columns: time passes, erased
      rows go, new rows appear with their defaults. */
  ghost function Follow(d: Dispatch, window: nat, s: Ledger.State, t: Ledger.State): Dispatch
    requires s.now <= t.now
  {
    var gone := set row | row in d.table && !Lists(t.outbox, row);
    var d1 := Outbox.Do(d, window, Outbox.Wait(t.now - s.now));
    Outbox.DoAll(Outbox.Do(d1, window, Outbox.Remove(gone)), window, Inserts(Added(s, t)))
  }

  ghost function Next(zones: Zones, window: nat, w: World, e: Event): World {
    match e
    case Serve(a) =>
      var t := Ledger.Act(zones, w.db, a);
      TombstonesStay(zones, w.db, a);
      World(t, Follow(w.dispatch, window, w.db, t))
    case Take(worker, row) => w.(dispatch := Outbox.Do(w.dispatch, window, Outbox.Take(worker, row)))
    case Publish(worker, fate) =>
      w.(dispatch := Outbox.Do(w.dispatch, window, Outbox.Publish(worker, fate)))
    case Settle(worker) => w.(dispatch := Outbox.Do(w.dispatch, window, Outbox.Settle(worker)))
    case Crash(worker) => w.(dispatch := Outbox.Do(w.dispatch, window, Outbox.Crash(worker)))
  }

  ghost function History(zones: Zones, window: nat, events: seq<Event>): World {
    if events == [] then World(Ledger.Empty(), Outbox.Start())
    else Next(zones, window, History(zones, window, events[..|events| - 1]), events[|events| - 1])
  }

  // ---------- The two halves stay in step ----------

  /** The dispatcher's table holds exactly the ledger's outbox rows. */
  ghost predicate Coupled(s: Ledger.State, d: Dispatch) {
    && d.nextRow <= s.nextEvent
    && (forall i | 0 <= i < |s.outbox| :: s.outbox[i].id in d.table)
    && (forall i | 0 <= i < |s.outbox| && s.outbox[i].id in d.table ::
          d.table[s.outbox[i].id].event == s.outbox[i].event)
    && (forall row | row in d.table :: Lists(s.outbox, row))
  }

  /** The event is in the outbox, or was erased with its owner's account. */
  ghost predicate Sourced(s: Ledger.State, e: Ledger.Event) {
    e.owner in s.tombstones || exists i | 0 <= i < |s.outbox| :: s.outbox[i].event == e
  }

  ghost predicate AllSourced(s: Ledger.State, d: Dispatch) {
    && (forall i | 0 <= i < |d.log| :: Sourced(s, d.log[i].event))
    && (forall w | w in d.jobs :: Sourced(s, d.jobs[w].event))
  }

  ghost predicate Inv(w: World, window: nat) {
    && Runs.Inv(w.db) && Outbox.Inv(w.dispatch, window)
    && Coupled(w.db, w.dispatch) && AllSourced(w.db, w.dispatch)
  }

  ghost predicate AddsRows(d: Dispatch, t: Dispatch, rows: seq<Ledger.OutboxRow>) {
    && t.log == d.log && t.jobs == d.jobs
    && t.nextRow == (if rows == [] then d.nextRow else rows[|rows| - 1].id + 1)
    && (forall i | 0 <= i < |rows| ::
          rows[i].id in t.table && t.table[rows[i].id].event == rows[i].event)
    && (forall row | row in d.table && row < d.nextRow ::
          row in t.table && t.table[row] == d.table[row])
    && (forall row | row in t.table :: row in d.table || Lists(rows, row))
  }

  lemma ListsMore(rows: seq<Ledger.OutboxRow>, last: Ledger.OutboxRow, row: nat)
    ensures Lists(rows + [last], row) <==> Lists(rows, row) || row == last.id
  {
    var all := rows + [last];
    assert all[|rows|] == last;
    if Lists(rows, row) {
      var i :| 0 <= i < |rows| && rows[i].id == row;
      assert all[i].id == row;
    }
  }

  lemma AddOne(d: Dispatch, t: Dispatch, rows: seq<Ledger.OutboxRow>, last: Ledger.OutboxRow)
    requires AddsRows(d, t, rows) && d.nextRow <= last.id
    requires forall i | 0 <= i < |rows| :: rows[i].id < last.id
    ensures AddsRows(d, Outbox.Entered(t, last.id, last.event), rows + [last])
  {
    var t' := Outbox.Entered(t, last.id, last.event);
    forall row | row in t'.table
      ensures row in d.table || Lists(rows + [last], row)
    {
      ListsMore(rows, last, row);
    }
  }

  lemma InsertsOne(
    d: Dispatch, window: nat, rows: seq<Ledger.OutboxRow>, last: Ledger.OutboxRow)
    ensures Outbox.DoAll(d, window, Inserts(rows + [last])) ==
      Outbox.Do(
        Outbox.DoAll(d, window, Inserts(rows)), window, Outbox.Insert(last.id, last.event))
  {
    var steps := Inserts(rows + [last]);
    assert steps[..|rows|] == Inserts(rows);
    assert steps[|rows|] == Outbox.Insert(last.id, last.event);
  }

  ghost predicate Upward(rows: seq<Ledger.OutboxRow>, from: nat) {
    && (forall i | 0 <= i < |rows| :: from <= rows[i].id)
    && (forall i, j | 0 <= i < j < |rows| :: rows[i].id < rows[j].id)
  }

  lemma UpwardInit(rows: seq<Ledger.OutboxRow>, last: Ledger.OutboxRow, from: nat)
    requires Upward(rows + [last], from)
    ensures Upward(rows, from) && from <= last.id
    ensures forall i | 0 <= i < |rows| :: rows[i].id < last.id
  {
    var all := rows + [last];
    assert all[|rows|] == last;
    assert forall i | 0 <= i < |rows| :: all[i] == rows[i];
  }

  lemma AddOneMore(
    d: Dispatch, window: nat, rows: seq<Ledger.OutboxRow>, last: Ledger.OutboxRow)
    requires AddsRows(d, Outbox.DoAll(d, window, Inserts(rows)), rows) && d.nextRow <= last.id
    requires forall i | 0 <= i < |rows| :: rows[i].id < last.id
    ensures AddsRows(d, Outbox.DoAll(d, window, Inserts(rows + [last])), rows + [last])
  {
    var t := Outbox.DoAll(d, window, Inserts(rows));
    InsertsOne(d, window, rows, last);
    AddOne(d, t, rows, last);
    assert t.nextRow <= last.id;
  }

  /** Inserting rows with new, ascending numbers adds exactly those rows. */
  lemma {:induction false} InsertsAdd(d: Dispatch, window: nat, rows: seq<Ledger.OutboxRow>)
    requires Upward(rows, d.nextRow)
    ensures AddsRows(d, Outbox.DoAll(d, window, Inserts(rows)), rows)
  {
    if rows == [] {
      assert Inserts(rows) == [];
    } else {
      var before, last := rows[..|rows| - 1], rows[|rows| - 1];
      assert rows == before + [last];
      UpwardInit(before, last, d.nextRow);
      InsertsAdd(d, window, before);
      AddOneMore(d, window, before, last);
    }
  }

  // ---------- A ledger action ----------

  ghost predicate AppendsOrErases(s: Ledger.State, t: Ledger.State) {
    && s.nextEvent <= t.nextEvent
    && if s.outbox <= t.outbox
       then forall i | |s.outbox| <= i < |t.outbox| :: s.nextEvent <= t.outbox[i].id
       else forall o | o in t.outbox :: o in s.outbox
  }

  /** A ledger action either appends to the outbox, under new numbers, or only
      removes from it. */
  lemma ActAppendsOrErases(zones: Zones, s: Ledger.State, a: Ledger.Action)
    requires Runs.Inv(s)
    ensures AppendsOrErases(s, Ledger.Act(zones, s, a))
  {
    match a
    case Do(c) =>
      var v := Ledger.Judge(zones, s, c);
      if v.Applied? {
        CommitAppends(s, v.effect);
      }
    case EraseAccount(user) =>
      Erasure.UnconcernedOwner(s, user, s.outbox);
      UnconcernedShorter(s, user, s.outbox);
    case _ =>
  }

  lemma {:induction false} UnconcernedShorter(
    s: Ledger.State, user: nat, outbox: seq<Ledger.OutboxRow>)
    ensures |Ledger.Unconcerned(s, user, outbox)| <= |outbox|
  {
    if outbox != [] {
      UnconcernedShorter(s, user, outbox[..|outbox| - 1]);
    }
  }

  lemma CommitAppends(s: Ledger.State, e: Ledger.Effect)
    ensures var t := Ledger.Commit(s, e);
      && s.nextEvent <= t.nextEvent && s.outbox <= t.outbox
      && forall i | |s.outbox| <= i < |t.outbox| :: s.nextEvent <= t.outbox[i].id
  {
    ChangesAppend(Ledger.AddSeries(s, e.newSeries), e.changes);
  }

  lemma {:induction false} ChangesAppend(s: Ledger.State, cs: seq<Ledger.Change>)
    ensures var t := Ledger.ApplyAll(s, cs);
      && s.nextEvent <= t.nextEvent && s.outbox <= t.outbox
      && forall i | |s.outbox| <= i < |t.outbox| :: s.nextEvent <= t.outbox[i].id
  {
    if cs != [] {
      ChangesAppend(s, cs[..|cs| - 1]);
    }
  }

  /** The table after the erased rows are gone. */
  lemma KeptRows(s: Ledger.State, t: Ledger.State, d: Dispatch, d1: Dispatch)
    requires Coupled(s, d) && d1.nextRow == d.nextRow
    requires d1.table == d.table - (set row | row in d.table && !Lists(t.outbox, row))
    requires forall o | o in t.outbox :: o in s.outbox
    requires s.nextEvent <= t.nextEvent
    ensures Coupled(t, d1)
  {
    forall i | 0 <= i < |t.outbox|
      ensures t.outbox[i].id in d1.table
      ensures d1.table[t.outbox[i].id].event == t.outbox[i].event
    {
      assert t.outbox[i] in s.outbox;
      var j :| 0 <= j < |s.outbox| && s.outbox[j] == t.outbox[i];
      assert Lists(t.outbox, t.outbox[i].id);
    }
  }

  lemma ListsPrefix(a: seq<Ledger.OutboxRow>, b: seq<Ledger.OutboxRow>, row: nat)
    ensures Lists(a + b, row) <==> Lists(a, row) || Lists(b, row)
  {
    if Lists(a, row) {
      var i :| 0 <= i < |a| && a[i].id == row;
      assert (a + b)[i].id == row;
    }
    if Lists(b, row) {
      var i :| 0 <= i < |b| && b[i].id == row;
      assert (a + b)[|a| + i].id == row;
    }
  }

  /** The table after new rows have been inserted. */
  lemma NewRows(s: Ledger.State, t: Ledger.State, d: Dispatch, d2: Dispatch)
    requires Coupled(s, d) && Structure.Numbered(t)
    requires s.outbox <= t.outbox && s.nextEvent <= t.nextEvent
    requires forall row | row in d.table :: row < d.nextRow
    requires AddsRows(d, d2, t.outbox[|s.outbox|..])
    ensures Coupled(t, d2)
  {
    var added := t.outbox[|s.outbox|..];
    assert t.outbox == s.outbox + added;
    forall i | 0 <= i < |t.outbox|
      ensures t.outbox[i].id in d2.table
      ensures d2.table[t.outbox[i].id].event == t.outbox[i].event
    {
      if i < |s.outbox| {
        assert s.outbox[i] == t.outbox[i];
      } else {
        assert added[i - |s.outbox|] == t.outbox[i];
      }
    }
    forall row | row in d2.table
      ensures Lists(t.outbox, row)
    {
      ListsPrefix(s.outbox, added, row);
    }
  }

  /** The dispatcher's columns after the wait and the erasure, before the inserts. */
  ghost function Cleared(d: Dispatch, window: nat, s: Ledger.State, t: Ledger.State): Dispatch
    requires s.now <= t.now
  {
    var gone := set row | row in d.table && !Lists(t.outbox, row);
    Outbox.Do(Outbox.Do(d, window, Outbox.Wait(t.now - s.now)), window, Outbox.Remove(gone))
  }

  lemma EraseCouples(d: Dispatch, window: nat, s: Ledger.State, t: Ledger.State)
    requires Coupled(s, d) && s.now <= t.now && s.nextEvent <= t.nextEvent
    requires !(s.outbox <= t.outbox) && forall o | o in t.outbox :: o in s.outbox
    ensures var d' := Follow(d, window, s, t);
      Coupled(t, d') && d'.log == d.log && d'.jobs == d.jobs
  {
    KeptRows(s, t, d, Cleared(d, window, s, t));
    assert Inserts([]) == [];
  }

  lemma FollowCouples(d: Dispatch, window: nat, s: Ledger.State, t: Ledger.State)
    requires Coupled(s, d) && Structure.Numbered(t) && s.now <= t.now
    requires AppendsOrErases(s, t) && forall row | row in d.table :: row < d.nextRow
    ensures var d' := Follow(d, window, s, t);
      Coupled(t, d') && d'.log == d.log && d'.jobs == d.jobs
  {
    if s.outbox <= t.outbox {
      AppendCouples(s, t, d, Cleared(d, window, s, t), window);
    } else {
      EraseCouples(d, window, s, t);
    }
  }

  lemma AppendCouples(s: Ledger.State, t: Ledger.State, d: Dispatch, d1: Dispatch, window: nat)
    requires Coupled(s, d) && Structure.Numbered(t)
    requires s.outbox <= t.outbox && s.nextEvent <= t.nextEvent
    requires forall row | row in d.table :: row < d.nextRow
    requires forall i | |s.outbox| <= i < |t.outbox| :: s.nextEvent <= t.outbox[i].id
    requires d1.table == d.table - (set row | row in d.table && !Lists(t.outbox, row))
    requires d1.nextRow == d.nextRow && d1.log == d.log && d1.jobs == d.jobs
    ensures var d2 := Outbox.DoAll(d1, window, Inserts(Added(s, t)));
      Coupled(t, d2) && d2.log == d.log && d2.jobs == d.jobs
  {
    var added := t.outbox[|s.outbox|..];
    NoneGone(s, t, d);
    assert d1.table == d.table;
    AddedUpward(s, t, d1.nextRow);
    InsertsAdd(d1, window, added);
    NewRows(s, t, d1, Outbox.DoAll(d1, window, Inserts(added)));
  }

  lemma NoneGone(s: Ledger.State, t: Ledger.State, d: Dispatch)
    requires Coupled(s, d) && s.outbox <= t.outbox
    ensures forall row | row in d.table :: Lists(t.outbox, row)
  {
    var added := t.outbox[|s.outbox|..];
    assert t.outbox == s.outbox + added;
    forall row | row in d.table
      ensures Lists(t.outbox, row)
    {
      ListsPrefix(s.outbox, added, row);
    }
  }

  lemma AddedUpward(s: Ledger.State, t: Ledger.State, from: nat)
    requires Structure.Numbered(t) && s.outbox <= t.outbox && from <= s.nextEvent
    requires forall i | |s.outbox| <= i < |t.outbox| :: s.nextEvent <= t.outbox[i].id
    ensures Upward(t.outbox[|s.outbox|..], from)
  {
    var added := t.outbox[|s.outbox|..];
    assert forall i | 0 <= i < |added| :: added[i] == t.outbox[|s.outbox| + i];
  }

  /** An event once in the outbox stays there, or its owner is erased. */
  lemma SourceStays(zones: Zones, s: Ledger.State, a: Ledger.Action, e: Ledger.Event)
    requires Runs.Inv(s) && Sourced(s, e)
    ensures Sourced(Ledger.Act(zones, s, a), e)
  {
    TombstonesStay(zones, s, a);
    if e.owner !in s.tombstones {
      var i :| 0 <= i < |s.outbox| && s.outbox[i].event == e;
      ActKeepsRows(zones, s, a, s.outbox[i]);
      var t := Ledger.Act(zones, s, a);
      if s.outbox[i] in t.outbox {
        var j :| 0 <= j < |t.outbox| && t.outbox[j] == s.outbox[i];
        assert t.outbox[j].event == e;
      }
    }
  }

  lemma ServeKeeps(zones: Zones, window: nat, w: World, a: Ledger.Action)
    requires Inv(w, window)
    ensures Inv(Next(zones, window, w, Serve(a)), window)
  {
    var s, t, d := w.db, Ledger.Act(zones, w.db, a), w.dispatch;
    ActInv(zones, s, a);
    TombstonesStay(zones, s, a);
    ActAppendsOrErases(zones, s, a);
    RowsAreNumbered(d, window);
    FollowCouples(d, window, s, t);
    FollowInv(d, window, s, t);
    forall i | 0 <= i < |d.log|
      ensures Sourced(t, d.log[i].event)
    {
      SourceStays(zones, s, a, d.log[i].event);
    }
    forall v | v in d.jobs
      ensures Sourced(t, d.jobs[v].event)
    {
      SourceStays(zones, s, a, d.jobs[v].event);
    }
  }

  lemma RowsAreNumbered(d: Dispatch, window: nat)
    requires Outbox.Inv(d, window)
    ensures forall row | row in d.table :: row < d.nextRow
  {
    assert forall row | row in d.table :: Outbox.EntryOk(d, row, d.table[row]);
  }

  lemma FollowInv(d: Dispatch, window: nat, s: Ledger.State, t: Ledger.State)
    requires Outbox.Inv(d, window) && s.now <= t.now
    ensures Outbox.Inv(Follow(d, window, s, t), window)
  {
    var gone := set row | row in d.table && !Lists(t.outbox, row);
    var d1 := Outbox.Do(d, window, Outbox.Wait(t.now - s.now));
    var d2 := Outbox.Do(d1, window, Outbox.Remove(gone));
    Outbox.DoKeeps(d, window, Outbox.Wait(t.now - s.now));
    Outbox.DoKeeps(d1, window, Outbox.Remove(gone));
    Outbox.RunKeeps(d2, window, Inserts(Added(s, t)));
  }

  // ---------- A worker's step ----------

  lemma TakeKeeps(s: Ledger.State, d: Dispatch, window: nat, worker: nat, row: nat)
    requires Coupled(s, d) && AllSourced(s, d)
    ensures var t := Outbox.Do(d, window, Outbox.Take(worker, row));
      Coupled(s, t) && AllSourced(s, t)
  {
    if worker !in d.jobs && Outbox.Claimable(d, row) {
      assert Lists(s.outbox, row);
      var i :| 0 <= i < |s.outbox| && s.outbox[i].id == row;
      assert Sourced(s, d.table[row].event);
    }
  }

  lemma WorkKeeps(s: Ledger.State, d: Dispatch, window: nat, step: Outbox.Step)
    requires Coupled(s, d) && AllSourced(s, d) && (step.Publish? || step.Settle? || step.Crash?)
    ensures Coupled(s, Outbox.Do(d, window, step)) && AllSourced(s, Outbox.Do(d, window, step))
  {
  }

  lemma NextKeeps(zones: Zones, window: nat, w: World, e: Event)
    requires Inv(w, window)
    ensures Inv(Next(zones, window, w, e), window)
  {
    var d := w.dispatch;
    match e
    case Serve(a) => ServeKeeps(zones, window, w, a);
    case Take(worker, row) =>
      Outbox.DoKeeps(d, window, Outbox.Take(worker, row));
      TakeKeeps(w.db, d, window, worker, row);
    case Publish(worker, fate) =>
      Outbox.DoKeeps(d, window, Outbox.Publish(worker, fate));
      WorkKeeps(w.db, d, window, Outbox.Publish(worker, fate));
    case Settle(worker) =>
      Outbox.DoKeeps(d, window, Outbox.Settle(worker));
      WorkKeeps(w.db, d, window, Outbox.Settle(worker));
    case Crash(worker) =>
      Outbox.DoKeeps(d, window, Outbox.Crash(worker));
      WorkKeeps(w.db, d, window, Outbox.Crash(worker));
  }

  lemma {:induction false} HistoryKeeps(zones: Zones, window: nat, events: seq<Event>)
    ensures Inv(History(zones, window, events), window)
  {
    if events == [] {
      EmptyInv();
      Outbox.StartInv(window);
    } else {
      HistoryKeeps(zones, window, events[..|events| - 1]);
      NextKeeps(
        zones, window, History(zones, window, events[..|events| - 1]), events[|events| - 1]);
    }
  }

  // ---------- End to end ----------

  /** A subscriber has read all of the user's messages in the stream: each at least
      once, in any order. */
  ghost predicate Received(received: seq<Ledger.Event>, d: Dispatch, user: nat) {
    && (forall e | e in received :: Outbox.InLog(d, e) && e.owner == user)
    && (forall i | 0 <= i < |d.log| && d.log[i].event.owner == user :: d.log[i].event in received)
  }

  ghost predicate AllPublished(w: World, user: nat) {
    forall i | 0 <= i < |w.db.outbox| && w.db.outbox[i].event.owner == user ::
      var row := w.db.outbox[i].id;
      row in w.dispatch.table && w.dispatch.table[row].publishedAt.Some?
  }

  /** Whatever calls, workers, crashes, lost and repeated publishes came before:
      once all of a user's outbox rows are marked published, anyone who has read
      the user's messages, in any order and with any repetition, holds exactly the
      user's schedules as they are now. */
  lemma SubscribersSeeTheTruth(
    zones: Zones, window: nat, events: seq<Event>, user: nat, received: seq<Ledger.Event>)
    requires user !in History(zones, window, events).db.tombstones
    requires AllPublished(History(zones, window, events), user)
    requires Received(received, History(zones, window, events).dispatch, user)
    ensures Mirrors(Fold(received), History(zones, window, events).db, user)
  {
    HistoryKeeps(zones, window, events);
    var w := History(zones, window, events);
    ReceivedDelivers(w, window, user, received);
    AnyOrderRebuilds(w.db, user, received);
  }

  lemma ReceivedDelivers(w: World, window: nat, user: nat, received: seq<Ledger.Event>)
    requires Inv(w, window) && user !in w.db.tombstones
    requires AllPublished(w, user) && Received(received, w.dispatch, user)
    ensures Delivers(received, w.db, user)
  {
    var s, d := w.db, w.dispatch;
    forall e | e in received
      ensures exists i :: 0 <= i < |s.outbox| && s.outbox[i].event == e
    {
      var k :| 0 <= k < |d.log| && d.log[k].event == e;
      assert Sourced(s, d.log[k].event);
    }
    forall i | 0 <= i < |s.outbox| && s.outbox[i].event.owner == user
      ensures s.outbox[i].event in received
    {
      var row := s.outbox[i].id;
      assert row in d.table && d.table[row].publishedAt.Some?;
      assert Outbox.EntryOk(d, row, d.table[row]);
      var k :| 0 <= k < |d.log| && d.log[k].event == s.outbox[i].event;
    }
  }
}
