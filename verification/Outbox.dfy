/**
 The outbox dispatcher: any number of workers claim rows under a lease, publish
 them to the broker, and mark or reschedule them.  Workers crash at any point,
 publishes get lost or go through unheard, time passes between any two steps.
 Times are in milliseconds.
 */
module Outbox {
  import opened Prelude
  import opened Ledger
  import opened Replica

  const LEASE := 30_000
  const MAX_BACKOFF := 256_000

  /** `locked_by` and `locked_until`, which are set and cleared together. */
  datatype Lease = Lease(holder: nat, until: int)

  datatype Entry = Entry(
    event: Event, createdAt: int, attempts: nat, availableAt: int, lease: Option<Lease>,
    publishedAt: Option<int>)

  /** What a worker holds between its claim and its mark: `outcome` is what the
      publish returned. */
  datatype Job = Job(row: nat, lock: nat, event: Event, since: int, outcome: Option<bool>)

  datatype Logged = Logged(event: Event, at: int)

  datatype Dispatch = Dispatch(
    table: map<nat, Entry>, jobs: map<nat, Job>, log: seq<Logged>, now: int,
    nextRow: nat, nextLock: nat)

  function Start(): Dispatch {
    Dispatch(map[], map[], [], 0, 0, 0)
  }

  /** How a publish can end: the broker has it and says so, the broker never got
      it, or the broker has it but the answer is lost or late. */
  datatype Fate = Accepted | Lost | Unheard

  datatype Step =
    | Insert(row: nat, event: Event)
    | Remove(rows: set<nat>)
    | Wait(millis: nat)
    | Take(worker: nat, row: nat)
    | Publish(worker: nat, fate: Fate)
    | Settle(worker: nat)
    | Crash(worker: nat)

  predicate Claimable(d: Dispatch, row: nat) {
    && row in d.table && d.table[row].publishedAt.None? && d.table[row].availableAt <= d.now
    && (d.table[row].lease.Some? ==> d.table[row].lease.value.until < d.now)
  }

  /** The broker still remembers the event's message id. */
  predicate Remembers(d: Dispatch, window: nat, e: Event) {
    exists i | 0 <= i < |d.log| ::
      MessageIdOf(d.log[i].event) == MessageIdOf(e) && d.now - d.log[i].at < window
  }

  function Pow2(n: nat): nat { if n == 0 then 1 else 2 * Pow2(n - 1) }

  function Least(a: nat, b: nat): nat { if a <= b then a else b }

  /** Seconds until the next try; `attempts` is the already incremented counter. */
  function Backoff(attempts: nat): nat { Least(300, Pow2(Least(attempts + 1, 8))) }

  function Marked(entry: Entry, now: int): Entry {
    entry.(publishedAt := Some(now), lease := None)
  }

  function Rescheduled(entry: Entry, now: int): Entry {
    entry.(
      attempts := entry.attempts + 1,
      availableAt := now + 1000 * Backoff(entry.attempts + 1), lease := None)
  }

  /** UPDATE ... WHERE id = ? AND locked_by = ?: does the worker still hold it? */
  predicate Holds(d: Dispatch, job: Job) {
    && job.row in d.table && d.table[job.row].lease.Some?
    && d.table[job.row].lease.value.holder == job.lock
  }

  function Leased(d: Dispatch, row: nat): Entry
    requires row in d.table
  {
    d.table[row].(lease := Some(Lease(d.nextLock, d.now + LEASE)))
  }

  function Claimed(d: Dispatch, worker: nat, row: nat): Dispatch
    requires row in d.table
  {
    d.(table := d.table[row := Leased(d, row)],
       jobs := d.jobs[worker := Job(row, d.nextLock, d.table[row].event, d.now, None)],
       nextLock := d.nextLock + 1)
  }

  function Sent(d: Dispatch, window: nat, worker: nat, fate: Fate): Dispatch
    requires worker in d.jobs
  {
    var job := d.jobs[worker];
    d.(jobs := d.jobs[worker := job.(outcome := Some(fate == Accepted))],
       log := if fate == Lost || Remembers(d, window, job.event) then d.log
              else d.log + [Logged(job.event, d.now)])
  }

  function Settled(d: Dispatch, worker: nat): Dispatch
    requires worker in d.jobs && d.jobs[worker].outcome.Some?
  {
    var job := d.jobs[worker];
    d.(table :=
         if !Holds(d, job) then d.table
         else d.table[job.row :=
           if job.outcome.value then Marked(d.table[job.row], d.now)
           else Rescheduled(d.table[job.row], d.now)],
       jobs := d.jobs - {worker})
  }

  function Entered(d: Dispatch, row: nat, event: Event): Dispatch {
    d.(table := d.table[row := Entry(event, d.now, 0, d.now, None, None)], nextRow := row + 1)
  }

  /** One step; a step that is not enabled does nothing. */
  function Do(d: Dispatch, window: nat, step: Step): Dispatch {
    match step
    case Insert(row, event) => if row < d.nextRow then d else Entered(d, row, event)
    case Remove(rows) => d.(table := d.table - rows)
    case Wait(millis) => d.(now := d.now + millis)
    case Take(w, row) => if w in d.jobs || !Claimable(d, row) then d else Claimed(d, w, row)
    case Publish(w, fate) =>
      if w in d.jobs && d.jobs[w].outcome.None? then Sent(d, window, w, fate) else d
    case Settle(w) => if w in d.jobs && d.jobs[w].outcome.Some? then Settled(d, w) else d
    case Crash(w) => d.(jobs := d.jobs - {w})
  }

  function DoAll(d: Dispatch, window: nat, steps: seq<Step>): Dispatch {
    if steps == [] then d
    else Do(DoAll(d, window, steps[..|steps| - 1]), window, steps[|steps| - 1])
  }

  // ---------- The invariant ----------

  ghost predicate InLog(d: Dispatch, e: Event) {
    exists i | 0 <= i < |d.log| :: d.log[i].event == e
  }

  ghost predicate EntryOk(d: Dispatch, row: nat, entry: Entry) {
    && row < d.nextRow
    && (entry.publishedAt.None? ==> entry.availableAt <= d.now + MAX_BACKOFF)
    && (entry.lease.Some? ==>
          entry.lease.value.holder < d.nextLock && entry.lease.value.until <= d.now + LEASE)
    && (entry.publishedAt.Some? ==> entry.lease.None? && InLog(d, entry.event))
  }

  /** The worker holds its row's lease, or its lease is over, or the row is gone. */
  ghost predicate HoldsOrLate(d: Dispatch, job: Job) {
    || job.row !in d.table
    || d.table[job.row].lease == Some(Lease(job.lock, job.since + LEASE))
    || job.since + LEASE < d.now
  }

  ghost predicate JobOk(d: Dispatch, job: Job) {
    && job.row < d.nextRow && job.lock < d.nextLock && job.since <= d.now
    && (job.row in d.table ==> d.table[job.row].event == job.event)
    && (job.outcome == Some(true) ==> InLog(d, job.event))
    && HoldsOrLate(d, job)
  }

  /** Two workers on one row: the earlier one's lease ended before the later one
      claimed. */
  ghost predicate Apart(a: Job, b: Job) {
    && a.lock != b.lock
    && (a.row == b.row && a.lock < b.lock ==> a.since + LEASE < b.since)
  }

  ghost predicate LogOk(d: Dispatch, window: nat) {
    && (forall i | 0 <= i < |d.log| :: d.log[i].at <= d.now)
    && (forall i, j | 0 <= i < j < |d.log| && d.log[i].event == d.log[j].event ::
          d.log[i].at + window <= d.log[j].at)
  }

  ghost predicate Inv(d: Dispatch, window: nat) {
    && (forall row | row in d.table :: EntryOk(d, row, d.table[row]))
    && (forall w | w in d.jobs :: JobOk(d, d.jobs[w]))
    && (forall v, w | v in d.jobs && w in d.jobs && v != w :: Apart(d.jobs[v], d.jobs[w]))
    && LogOk(d, window)
  }

  lemma {:induction false} Pow2Grows(m: nat, n: nat)
    requires m <= n
    ensures Pow2(m) <= Pow2(n)
  {
    if m < n {
      Pow2Grows(m, n - 1);
    }
  }

  /** The 300 s cap never bites: the wait is 4, 8, ... and at most 256 s. */
  lemma BackoffIsBounded(attempts: nat)
    requires attempts >= 1
    ensures Backoff(attempts) == Pow2(Least(attempts + 1, 8))
    ensures 4 <= Backoff(attempts) && 1000 * Backoff(attempts) <= MAX_BACKOFF
  {
    Pow2Grows(2, Least(attempts + 1, 8));
    Pow2Grows(Least(attempts + 1, 8), 8);
    assert Pow2(2) == 4 && Pow2(8) == 256;
  }

  /** The waits, in seconds, by the number of failed attempts before. */
  function WaitSeconds(attempts: nat): nat {
    if attempts == 0 then 4 else if attempts == 1 then 8 else if attempts == 2 then 16
    else if attempts == 3 then 32 else if attempts == 4 then 64 else if attempts == 5 then 128
    else 256
  }

  lemma WaitsDouble(attempts: nat, n: nat)
    requires n == Least(attempts + 2, 8)
    ensures Pow2(n) == WaitSeconds(attempts)
  {
    assert Pow2(2) == 4 && Pow2(3) == 8 && Pow2(4) == 16 && Pow2(5) == 32;
    assert Pow2(6) == 64 && Pow2(7) == 128 && Pow2(8) == 256;
  }

  /** A failed attempt is counted, and the next one waits 4, 8, ... up to 256 s. */
  lemma RescheduleWaits(entry: Entry, now: int)
    ensures var e := Rescheduled(entry, now);
      && e.event == entry.event && e.publishedAt == entry.publishedAt && e.lease.None?
      && e.createdAt == entry.createdAt && e.attempts == entry.attempts + 1
      && e.availableAt == now + 1000 * WaitSeconds(entry.attempts)
  {
    BackoffIsBounded(entry.attempts + 1);
    WaitsDouble(entry.attempts, Least(entry.attempts + 2, 8));
  }

  /** Such a row can be claimed exactly from the end of its wait on. */
  lemma ClaimableAfterTheWait(d: Dispatch, row: nat, entry: Entry, since: int)
    requires row in d.table && d.table[row] == Rescheduled(entry, since)
    requires entry.publishedAt.None?
    ensures Claimable(d, row) <==> since + 1000 * WaitSeconds(entry.attempts) <= d.now
  {
    RescheduleWaits(entry, since);
  }

  /** A claimed row can be claimed again exactly when its 30 seconds are over. */
  lemma ClaimableAfterTheLease(d: Dispatch, t: Dispatch, row: nat)
    requires Claimable(d, row) && row in t.table && d.now <= t.now
    requires t.table[row] == Leased(d, row)
    ensures Claimable(t, row) <==> d.now + 30_000 < t.now
  {
  }

  /** A new row can be claimed at once. */
  lemma NewRowIsClaimable(d: Dispatch, row: nat, event: Event)
    ensures Claimable(Entered(d, row, event), row)
    ensures var e := Entered(d, row, event).table[row];
      && e.event == event && e.createdAt == d.now && e.availableAt == d.now
      && e.attempts == 0 && e.lease.None? && e.publishedAt.None?
  {
  }

  /** Facts about the log survive as it grows and time passes. */
  lemma LogGrows(d: Dispatch, t: Dispatch, e: Event)
    requires d.log <= t.log && InLog(d, e)
    ensures InLog(t, e)
  {
    var i :| 0 <= i < |d.log| && d.log[i].event == e;
    assert t.log[i].event == e;
  }

  lemma EntryStays(d: Dispatch, t: Dispatch, row: nat, entry: Entry)
    requires EntryOk(d, row, entry) && d.log <= t.log
    requires d.now <= t.now && d.nextRow <= t.nextRow && d.nextLock <= t.nextLock
    ensures EntryOk(t, row, entry)
  {
    if InLog(d, entry.event) {
      LogGrows(d, t, entry.event);
    }
  }

  lemma JobStays(d: Dispatch, t: Dispatch, job: Job)
    requires JobOk(d, job) && d.log <= t.log
    requires d.now <= t.now && d.nextRow <= t.nextRow && d.nextLock <= t.nextLock
    requires job.row in t.table ==>
      job.row in d.table && t.table[job.row].event == d.table[job.row].event
    requires job.row in t.table ==>
      t.table[job.row].lease == d.table[job.row].lease || job.since + LEASE < t.now
    ensures JobOk(t, job)
  {
    if InLog(d, job.event) {
      LogGrows(d, t, job.event);
    }
  }

  lemma InsertKeeps(d: Dispatch, window: nat, row: nat, event: Event)
    requires Inv(d, window) && d.nextRow <= row
    ensures Inv(Entered(d, row, event), window)
  {
    var t := Entered(d, row, event);
    forall r | r in t.table
      ensures EntryOk(t, r, t.table[r])
    {
      if r != row {
        EntryStays(d, t, r, d.table[r]);
      }
    }
    forall w | w in t.jobs
      ensures JobOk(t, t.jobs[w])
    {
      assert JobOk(d, d.jobs[w]);
      JobStays(d, t, d.jobs[w]);
    }
  }

  lemma QuietKeeps(d: Dispatch, window: nat, step: Step)
    requires Inv(d, window) && (step.Remove? || step.Wait? || step.Crash?)
    ensures Inv(Do(d, window, step), window)
  {
    var t := Do(d, window, step);
    forall r | r in t.table
      ensures EntryOk(t, r, t.table[r])
    {
      EntryStays(d, t, r, d.table[r]);
    }
    forall w | w in t.jobs
      ensures JobOk(t, t.jobs[w])
    {
      assert JobOk(d, d.jobs[w]);
      JobStays(d, t, d.jobs[w]);
    }
  }

  lemma ClaimKeeps(d: Dispatch, window: nat, worker: nat, row: nat)
    requires Inv(d, window) && worker !in d.jobs && Claimable(d, row)
    ensures Inv(Claimed(d, worker, row), window)
  {
    var t := Claimed(d, worker, row);
    forall r | r in t.table
      ensures EntryOk(t, r, t.table[r])
    {
      EntryStays(d, t, r, d.table[r]);
    }
    forall w | w in d.jobs
      ensures JobOk(t, t.jobs[w]) && Apart(t.jobs[w], t.jobs[worker])
    {
      assert JobOk(d, d.jobs[w]);
      JobStays(d, t, d.jobs[w]);
    }
  }

  lemma SentLog(d: Dispatch, window: nat, worker: nat, fate: Fate)
    requires Inv(d, window) && worker in d.jobs
    ensures var t := Sent(d, window, worker, fate);
      && LogOk(t, window) && d.log <= t.log
      && (fate == Accepted ==> InLog(t, d.jobs[worker].event))
  {
    var e := d.jobs[worker].event;
    var t := Sent(d, window, worker, fate);
    if fate != Lost {
      if Remembers(d, window, e) {
        var i :| 0 <= i < |d.log| && MessageIdOf(d.log[i].event) == MessageIdOf(e);
        MessageIdTells(d.log[i].event, e);
        assert t.log[i].event == e;
      } else {
        assert t.log[|d.log|].event == e;
        forall i | 0 <= i < |d.log| && d.log[i].event == e
          ensures d.log[i].at + window <= d.now
        {
          MessageIdTells(d.log[i].event, e);
        }
      }
    }
  }

  lemma PublishKeeps(d: Dispatch, window: nat, worker: nat, fate: Fate)
    requires Inv(d, window) && worker in d.jobs && d.jobs[worker].outcome.None?
    ensures Inv(Sent(d, window, worker, fate), window)
  {
    var t := Sent(d, window, worker, fate);
    SentLog(d, window, worker, fate);
    forall r | r in t.table
      ensures EntryOk(t, r, t.table[r])
    {
      EntryStays(d, t, r, d.table[r]);
    }
    forall w | w in t.jobs
      ensures JobOk(t, t.jobs[w])
    {
      assert JobOk(d, d.jobs[w]);
      JobStays(d, t, d.jobs[w]);
    }
    forall v, w | v in t.jobs && w in t.jobs && v != w
      ensures Apart(t.jobs[v], t.jobs[w])
    {
      assert Apart(d.jobs[v], d.jobs[w]);
    }
  }

  lemma SettleKeeps(d: Dispatch, window: nat, worker: nat)
    requires Inv(d, window) && worker in d.jobs && d.jobs[worker].outcome.Some?
    ensures Inv(Settled(d, worker), window)
  {
    var t := Settled(d, worker);
    var job := d.jobs[worker];
    assert JobOk(d, job);
    forall r | r in t.table
      ensures EntryOk(t, r, t.table[r])
    {
      EntryStays(d, t, r, d.table[r]);
      BackoffIsBounded(d.table[r].attempts + 1);
    }
    forall w | w in t.jobs
      ensures JobOk(t, t.jobs[w])
    {
      assert JobOk(d, d.jobs[w]) && Apart(d.jobs[w], job);
      JobStays(d, t, d.jobs[w]);
    }
  }

  /** Every step keeps the invariant. */
  lemma DoKeeps(d: Dispatch, window: nat, step: Step)
    requires Inv(d, window)
    ensures Inv(Do(d, window, step), window)
  {
    match step
    case Insert(row, event) => if row >= d.nextRow { InsertKeeps(d, window, row, event); }
    case Take(w, row) => if w !in d.jobs && Claimable(d, row) { ClaimKeeps(d, window, w, row); }
    case Publish(w, fate) =>
      if w in d.jobs && d.jobs[w].outcome.None? { PublishKeeps(d, window, w, fate); }
    case Settle(w) => if w in d.jobs && d.jobs[w].outcome.Some? { SettleKeeps(d, window, w); }
    case _ => QuietKeeps(d, window, step);
  }

  lemma {:induction false} RunKeeps(d: Dispatch, window: nat, steps: seq<Step>)
    requires Inv(d, window)
    ensures Inv(DoAll(d, window, steps), window)
  {
    if steps != [] {
      RunKeeps(d, window, steps[..|steps| - 1]);
      DoKeeps(DoAll(d, window, steps[..|steps| - 1]), window, steps[|steps| - 1]);
    }
  }

  lemma StartInv(window: nat)
    ensures Inv(Start(), window)
  {
  }

  // ---------- What holds in every run ----------

  /** A row marked published was accepted by the broker; and the stream repeats an
      event only after the broker has forgotten it. */
  lemma PublishedWasAccepted(window: nat, steps: seq<Step>)
    ensures var d := DoAll(Start(), window, steps);
      && (forall row | row in d.table && d.table[row].publishedAt.Some? ::
            InLog(d, d.table[row].event))
      && (forall i, j | 0 <= i < j < |d.log| && d.log[i].event == d.log[j].event ::
            d.log[i].at + window <= d.log[j].at)
  {
    StartInv(window);
    RunKeeps(Start(), window, steps);
    var d := DoAll(Start(), window, steps);
    forall row | row in d.table && d.table[row].publishedAt.Some?
      ensures InLog(d, d.table[row].event)
    {
      assert EntryOk(d, row, d.table[row]);
    }
  }

  lemma {:induction false} DoAllAppend(d: Dispatch, window: nat, a: seq<Step>, b: seq<Step>)
    ensures DoAll(d, window, a + b) == DoAll(DoAll(d, window, a), window, b)
  {
    if b == [] {
      assert a + b == a;
    } else {
      var n := |b| - 1;
      assert (a + b)[..|a + b| - 1] == a + b[..n];
      DoAllAppend(d, window, a, b[..n]);
    }
  }

  /** The row is as it was, or gone for good. */
  ghost predicate SameOrGone(d: Dispatch, row: nat, entry: Entry) {
    row < d.nextRow && (row in d.table ==> d.table[row] == entry)
  }

  /** Published is final: no later step changes such a row; it can only be erased. */
  lemma {:induction false} PublishedIsFinal(d: Dispatch, window: nat, row: nat, steps: seq<Step>)
    requires Inv(d, window) && row in d.table && d.table[row].publishedAt.Some?
    ensures SameOrGone(DoAll(d, window, steps), row, d.table[row])
  {
    assert EntryOk(d, row, d.table[row]);
    if steps != [] {
      PublishedIsFinal(d, window, row, steps[..|steps| - 1]);
    }
  }

  /** The lock no longer guards the row. */
  ghost predicate Stale(d: Dispatch, row: nat, lock: nat) {
    && row < d.nextRow && lock < d.nextLock
    && (row in d.table && d.table[row].lease.Some? ==> d.table[row].lease.value.holder != lock)
  }

  lemma {:induction false} StaleForever(
    d: Dispatch, window: nat, row: nat, lock: nat, steps: seq<Step>)
    requires Stale(d, row, lock)
    ensures Stale(DoAll(d, window, steps), row, lock)
  {
    if steps != [] {
      StaleForever(d, window, row, lock, steps[..|steps| - 1]);
    }
  }

  /** Once another worker has taken a row over, whatever the first one does then or
      later leaves the table unchanged. */
  lemma OvertakenChangesNothing(
    d: Dispatch, window: nat, first: nat, second: nat, steps: seq<Step>)
    requires Inv(d, window) && first in d.jobs && second !in d.jobs
    requires Claimable(d, d.jobs[first].row)
    ensures var d1 := Do(d, window, Take(second, d.jobs[first].row));
      var t := DoAll(d1, window, steps);
      && Holds(d1, d1.jobs[second])
      && (first in t.jobs && t.jobs[first].lock == d.jobs[first].lock &&
          t.jobs[first].row == d.jobs[first].row ==>
            Do(t, window, Settle(first)).table == t.table)
  {
    var job := d.jobs[first];
    assert JobOk(d, job);
    var d1 := Do(d, window, Take(second, job.row));
    StaleForever(d1, window, job.row, job.lock, steps);
  }

  /** Two workers are between claim and mark on one row only if the earlier one's
      lease ended before the later one claimed; so if every worker is done within
      its lease, it never happens. */
  lemma MutualExclusion(window: nat, steps: seq<Step>, v: nat, w: nat)
    ensures var d := DoAll(Start(), window, steps);
      v in d.jobs && w in d.jobs && v != w && d.jobs[v].row == d.jobs[w].row ==>
        || d.jobs[v].since + 30_000 < d.jobs[w].since <= d.now
        || d.jobs[w].since + 30_000 < d.jobs[v].since <= d.now
  {
    StartInv(window);
    RunKeeps(Start(), window, steps);
    var d := DoAll(Start(), window, steps);
    if v in d.jobs && w in d.jobs && v != w {
      assert Apart(d.jobs[v], d.jobs[w]) && Apart(d.jobs[w], d.jobs[v]);
      assert JobOk(d, d.jobs[v]) && JobOk(d, d.jobs[w]);
    }
  }

  /** Without that, it does: a worker stalled past its lease meets a second one. */
  lemma StalledWorkerIsJoined(window: nat, e: Event)
    ensures var d := DoAll(Start(), window, [Insert(0, e), Take(0, 0), Wait(LEASE + 1), Take(1, 0)]);
      0 in d.jobs && 1 in d.jobs && d.jobs[0].row == d.jobs[1].row
  {
    var d0 := Start();
    var d1 := Do(d0, window, Insert(0, e));
    var d2 := Do(d1, window, Take(0, 0));
    var d3 := Do(d2, window, Wait(LEASE + 1));
    var steps := [Insert(0, e), Take(0, 0), Wait(LEASE + 1), Take(1, 0)];
    assert steps[..3][..2][..1][..0] == [];
    assert DoAll(d0, window, steps[..3][..2][..1]) == d1;
    assert DoAll(d0, window, steps[..3][..2]) == d2;
    assert DoAll(d0, window, steps[..3]) == d3;
  }

  /** Rows leave the table only by erasure. */
  lemma {:induction false} RowsStay(d: Dispatch, window: nat, row: nat, steps: seq<Step>)
    requires row in d.table && row < d.nextRow
    requires forall i | 0 <= i < |steps| && steps[i].Remove? :: row !in steps[i].rows
    ensures var t := DoAll(d, window, steps);
      row in t.table && row < t.nextRow && t.table[row].event == d.table[row].event
  {
    if steps != [] {
      var prior := steps[..|steps| - 1];
      assert forall i | 0 <= i < |prior| :: prior[i] == steps[i];
      RowsStay(d, window, row, prior);
    }
  }

  /** An unpublished row that nobody touches is claimable within 256 seconds,
      whatever its workers did before. */
  lemma ClaimableWithin256Seconds(window: nat, before: seq<Step>, later: seq<Step>, row: nat)
    requires var d := DoAll(Start(), window, before);
      row in d.table && d.table[row].publishedAt.None?
    requires var d, t := DoAll(Start(), window, before), DoAll(Start(), window, before + later);
      d.now + 256_000 <= t.now && row in t.table && row in d.table &&
      t.table[row] == d.table[row]
    ensures Claimable(DoAll(Start(), window, before + later), row)
  {
    StartInv(window);
    RunKeeps(Start(), window, before);
    var d := DoAll(Start(), window, before);
    assert EntryOk(d, row, d.table[row]);
  }

  /** A claimable row, an idle worker, an answering broker: the row gets out. */
  lemma ClaimedGetsOut(d: Dispatch, window: nat, row: nat, w: nat)
    requires Inv(d, window) && Claimable(d, row) && w !in d.jobs
    ensures var d2 := Do(d, window, Take(w, row));
      var d3 := Do(d2, window, Publish(w, Accepted));
      var d4 := Do(d3, window, Settle(w));
      row in d4.table && d4.table[row].publishedAt.Some? && InLog(d4, d.table[row].event)
  {
    var d2 := Claimed(d, w, row);
    ClaimKeeps(d, window, w, row);
    SentLog(d2, window, w, Accepted);
    var d3 := Sent(d2, window, w, Accepted);
    assert Holds(d3, d3.jobs[w]);
  }

  /** Nothing is ever stuck: from every reachable state an idle worker can get any
      unpublished row out, once the wait is over and the broker answers. */
  lemma AlwaysRecoverable(window: nat, before: seq<Step>, row: nat, w: nat)
    requires var d := DoAll(Start(), window, before);
      row in d.table && d.table[row].publishedAt.None? && w !in d.jobs
    ensures var d := DoAll(Start(), window, before);
      var d1 := Do(d, window, Wait(MAX_BACKOFF));
      var d2 := Do(d1, window, Take(w, row));
      var d3 := Do(d2, window, Publish(w, Accepted));
      var d4 := Do(d3, window, Settle(w));
      row in d4.table && d4.table[row].publishedAt.Some? && InLog(d4, d.table[row].event)
  {
    StartInv(window);
    RunKeeps(Start(), window, before);
    var d := DoAll(Start(), window, before);
    assert EntryOk(d, row, d.table[row]);
    QuietKeeps(d, window, Wait(MAX_BACKOFF));
    ClaimedGetsOut(Do(d, window, Wait(MAX_BACKOFF)), window, row, w);
  }

  // ---------- Emptying the table ----------

  /** One worker claims, publishes and marks one row, undisturbed. */
  function Drained(d: Dispatch, window: nat, row: nat, w: nat): Dispatch {
    Do(Do(Do(d, window, Take(w, row)), window, Publish(w, Accepted)), window, Settle(w))
  }

  ghost predicate Done(d: Dispatch, row: nat) {
    row in d.table ==> d.table[row].publishedAt.Some?
  }

  /** Every row is published or can be claimed. */
  ghost predicate Ready(d: Dispatch) {
    forall row | row in d.table :: d.table[row].publishedAt.Some? || Claimable(d, row)
  }

  lemma DrainedRow(d: Dispatch, window: nat, row: nat, w: nat)
    requires w !in d.jobs && Claimable(d, row)
    ensures var t := Drained(d, window, row, w);
      && t.jobs == d.jobs && t.now == d.now && t.nextRow == d.nextRow
      && t.table == d.table[row := Marked(Leased(d, row), d.now)]
  {
    var d1 := Claimed(d, w, row);
    var d2 := Sent(d1, window, w, Accepted);
    assert Holds(d2, d2.jobs[w]);
    assert d2.jobs - {w} == d.jobs;
  }

  /** After one such turn the row is published, and the others are as they were. */
  lemma DrainOne(d: Dispatch, window: nat, row: nat, w: nat)
    requires w !in d.jobs && Ready(d)
    ensures var t := Drained(d, window, row, w);
      && t.jobs == d.jobs && t.now == d.now && t.nextRow == d.nextRow
      && t.table.Keys == d.table.Keys && Done(t, row) && Ready(t)
      && forall r | r in d.table && Done(d, r) :: Done(t, r)
  {
    if Claimable(d, row) {
      DrainedRow(d, window, row, w);
    }
  }

  /** Once the longest wait is over, every row is ready. */
  lemma ReadyAfterTheWait(d: Dispatch, window: nat, t: Dispatch)
    requires Inv(d, window) && t.table == d.table && t.now == d.now + MAX_BACKOFF
    ensures Ready(t)
  {
    forall row | row in t.table
      ensures t.table[row].publishedAt.Some? || Claimable(t, row)
    {
      assert EntryOk(d, row, d.table[row]);
    }
  }
}
