/**
 The outbox is a faithful journal: for each schedule it holds one event per
 revision, in order, and the last one tells the schedule's present state.
 */
module Journal {
  import opened Ledger
  import opened Changes

  /** The events of one schedule, oldest first. */
  ghost function History(outbox: seq<OutboxRow>, id: nat): seq<Event> {
    if outbox == [] then []
    else
      var n := |outbox| - 1;
      History(outbox[..n], id) +
      if outbox[n].event.schedule == id then [outbox[n].event] else []
  }

  /** Revisions run 1, 2, ... without gap or repetition; only the first event is
      a creation and only the last may be a deletion; one owner throughout. */
  ghost predicate WellFormed(h: seq<Event>) {
    && (forall i | 0 <= i < |h| :: h[i].revision == i + 1)
    && (forall i | 0 <= i < |h| :: h[i].body.Created? <==> i == 0)
    && (forall i | 0 <= i < |h| - 1 :: !h[i].body.Deleted?)
    && (forall i | 0 <= i < |h| :: h[i].owner == h[0].owner)
  }

  /** The event says what the row says. */
  ghost predicate Tells(e: Event, row: Row) {
    && e.owner == row.owner && e.revision == row.revision
    && !e.body.Deleted? && Pictures(e.body.snapshot, row)
  }

  /** The journal of schedule `id` agrees with the schedules table. */
  ghost predicate Chronicle(s: State, id: nat) {
    var h := History(s.outbox, id);
    && WellFormed(h)
    && (id in s.schedules ==> h != [] && Tells(h[|h| - 1], s.schedules[id]))
    && (id !in s.schedules && h != [] ==> h[|h| - 1].body.Deleted?)
    && (h != [] ==> id < s.nextSchedule)
  }

  lemma HistoryAppend(outbox: seq<OutboxRow>, o: OutboxRow, id: nat)
    ensures History(outbox + [o], id) ==
      History(outbox, id) + if o.event.schedule == id then [o.event] else []
  {
    assert (outbox + [o])[..|outbox|] == outbox;
  }

  /** An event that continues a history. */
  ghost predicate Continues(h: seq<Event>, e: Event) {
    && e.revision == |h| + 1
    && (e.body.Created? <==> h == [])
    && (h != [] ==> !h[|h| - 1].body.Deleted? && e.owner == h[0].owner)
  }

  lemma Continued(h: seq<Event>, e: Event)
    requires WellFormed(h) && Continues(h, e)
    ensures WellFormed(h + [e])
  {
  }

  lemma ChangeContinues(s: State, user: nat, c: Change)
    requires Valid(s, user, c) && Chronicle(s, EventOf(s, c).schedule)
    ensures Continues(History(s.outbox, EventOf(s, c).schedule), EventOf(s, c))
  {
  }

  /** A change leaves its row as its event tells, or no row. */
  lemma ChangeTells(s: State, user: nat, c: Change)
    requires Valid(s, user, c)
    ensures var e, t := EventOf(s, c), Apply(s, c);
      && t.outbox == s.outbox + [OutboxRow(s.nextEvent, e)]
      && (e.schedule < s.nextSchedule ==> e.schedule < t.nextSchedule)
      && (c.Add? ==> e.schedule < t.nextSchedule)
      && (if c.Drop? then e.schedule !in t.schedules && e.body.Deleted?
          else e.schedule in t.schedules && Tells(e, t.schedules[e.schedule]))
  {
    if !c.Drop? {
      SnapshotPictures(c.row, SnapshotOf(c.row));
    }
  }

  lemma OthersStay(s: State, c: Change, id: nat)
    requires c.Drop? ==> c.id in s.schedules
    requires EventOf(s, c).schedule != id
    ensures var t := Apply(s, c);
      && t.outbox == s.outbox + [OutboxRow(s.nextEvent, EventOf(s, c))]
      && s.nextSchedule <= t.nextSchedule
      && (id in t.schedules <==> id in s.schedules)
      && (id in s.schedules ==> t.schedules[id] == s.schedules[id])
  {
  }

  /** One valid change keeps every schedule's journal in step. */
  lemma ApplyKeeps(s: State, user: nat, c: Change, id: nat)
    requires Valid(s, user, c) && Chronicle(s, id)
    requires c.Add? ==> Chronicle(s, s.nextSchedule)
    ensures Chronicle(Apply(s, c), id)
  {
    var e := EventOf(s, c);
    HistoryAppend(s.outbox, OutboxRow(s.nextEvent, e), id);
    if e.schedule == id {
      ChangeContinues(s, user, c);
      Continued(History(s.outbox, id), e);
      ChangeTells(s, user, c);
    } else {
      OthersStay(s, c, id);
    }
  }

  lemma {:induction false} ApplyAllKeeps(s: State, user: nat, cs: seq<Change>)
    requires ValidAll(s, user, cs) && forall id: nat :: Chronicle(s, id)
    ensures forall id: nat :: Chronicle(ApplyAll(s, cs), id)
  {
    if cs != [] {
      var t := cs[..|cs| - 1];
      ApplyAllKeeps(s, user, t);
      forall id: nat
        ensures Chronicle(ApplyAll(s, cs), id)
      {
        ApplyKeeps(ApplyAll(s, t), user, cs[|cs| - 1], id);
      }
    }
  }

  /** The journal depends on three tables only. */
  lemma SameJournal(s: State, t: State, id: nat)
    requires Chronicle(s, id) && t.schedules == s.schedules && t.outbox == s.outbox
    requires s.nextSchedule <= t.nextSchedule
    ensures Chronicle(t, id)
  {
  }

  // ---------- Erasing an account ----------

  lemma {:induction false} HistoryOwner(outbox: seq<OutboxRow>, id: nat, owner: nat)
    requires forall i | 0 <= i < |History(outbox, id)| :: History(outbox, id)[i].owner == owner
    ensures forall i | 0 <= i < |outbox| ::
      outbox[i].event.schedule == id ==> outbox[i].event.owner == owner
  {
    if outbox != [] {
      var n := |outbox| - 1;
      var h, g := History(outbox, id), History(outbox[..n], id);
      assert forall i | 0 <= i < |g| :: g[i] == h[i];
      HistoryOwner(outbox[..n], id, owner);
      if outbox[n].event.schedule == id {
        assert h[|h| - 1] == outbox[n].event;
      }
    }
  }

  lemma {:induction false} ErasedHistory(
    s: State, user: nat, outbox: seq<OutboxRow>, id: nat, gone: bool)
    requires forall i | 0 <= i < |outbox| ::
      outbox[i].event.schedule == id ==> (Concerns(s, user, outbox[i]) <==> gone)
    ensures History(Unconcerned(s, user, outbox), id) == if gone then [] else History(outbox, id)
  {
    if outbox != [] {
      var n := |outbox| - 1;
      var rest := outbox[..n];
      assert forall i | 0 <= i < n :: rest[i] == outbox[i];
      ErasedHistory(s, user, rest, id, gone);
      assert outbox[n].event.schedule == id ==> (Concerns(s, user, outbox[n]) <==> gone);
      if Concerns(s, user, outbox[n]) {
        assert Unconcerned(s, user, outbox) == Unconcerned(s, user, rest);
      } else {
        HistoryAppend(Unconcerned(s, user, rest), outbox[n], id);
      }
    }
  }

  /** Erasing an account removes whole journals, never parts of one. */
  lemma EraseKeeps(s: State, user: nat, id: nat)
    requires Chronicle(s, id)
    ensures Chronicle(Erase(s, user), id)
    ensures History(Erase(s, user).outbox, id) ==
      if History(s.outbox, id) != [] && History(s.outbox, id)[0].owner == user then []
      else History(s.outbox, id)
  {
    var h := History(s.outbox, id);
    if h == [] {
      HistoryOwner(s.outbox, id, user);
      HistoryOwner(s.outbox, id, user + 1);
      ErasedHistory(s, user, s.outbox, id, false);
    } else {
      HistoryOwner(s.outbox, id, h[0].owner);
      ErasedHistory(s, user, s.outbox, id, h[0].owner == user);
    }
  }

  // ---------- Distinct rows, distinct events ----------

  lemma {:induction false} HistoryHolds(outbox: seq<OutboxRow>, i: nat)
    requires i < |outbox|
    ensures outbox[i].event in History(outbox, outbox[i].event.schedule)
  {
    var n := |outbox| - 1;
    if i < n {
      HistoryHolds(outbox[..n], i);
    }
  }

  /** Two entries of one schedule sit at different places of its history. */
  lemma {:induction false} RevisionsDiffer(outbox: seq<OutboxRow>, id: nat, i: nat, j: nat)
    requires WellFormed(History(outbox, id)) && i < j < |outbox|
    requires outbox[i].event.schedule == id && outbox[j].event.schedule == id
    ensures outbox[i].event.revision < outbox[j].event.revision
  {
    var n := |outbox| - 1;
    var h, g := History(outbox, id), History(outbox[..n], id);
    assert forall k | 0 <= k < |g| :: g[k] == h[k];
    if j < n {
      RevisionsDiffer(outbox[..n], id, i, j);
    } else {
      HistoryHolds(outbox[..n], i);
      var k :| 0 <= k < |g| && g[k] == outbox[i].event;
      assert h[|h| - 1] == outbox[j].event;
    }
  }
}
