/**
 One dispatching worker as it runs, among others that step in between.
 */
module Dispatching {
  import opened Prelude
  import opened Outbox

  /** ORDER BY available_at, created_at. */
  predicate NoLater(a: Entry, b: Entry) {
    a.availableAt < b.availableAt || (a.availableAt == b.availableAt && a.createdAt <= b.createdAt)
  }

  /** The row the claim query returns: claimable, and none comes before it. */
  ghost predicate FirstClaimable(d: Dispatch, row: nat) {
    && Claimable(d, row)
    && forall r | r in d.table && Claimable(d, r) ::
         && d.table[row].availableAt <= d.table[r].availableAt
         && (d.table[row].availableAt == d.table[r].availableAt ==>
               d.table[row].createdAt <= d.table[r].createdAt)
  }

  /** The step is not one of this worker's. */
  predicate Foreign(step: Step, worker: nat) {
    match step
    case Take(w, _) => w != worker
    case Publish(w, _) => w != worker
    case Settle(w) => w != worker
    case Crash(w) => w != worker
    case _ => true
  }

  ghost predicate AllForeign(steps: seq<Step>, worker: nat) {
    forall i | 0 <= i < |steps| :: Foreign(steps[i], worker)
  }

  class Dispatcher {
    /** The outbox table, the broker and the clock, shared with other workers. */
    var d: Dispatch
    const window: nat
    const worker: nat

    ghost predicate Valid()
      reads this
    {
      Inv(d, window)
    }

    constructor (window: nat, worker: nat)
      ensures Valid() && d == Start() && this.window == window && this.worker == worker
    {
      this.window, this.worker := window, worker;
      d := Start();
      new;
      StartInv(window);
    }

    /** The claim's query. */
    method SelectRow() returns (row: Option<nat>)
      ensures row.Some? ==> FirstClaimable(d, row.value)
      ensures row.None? ==> forall r | r in d.table :: !Claimable(d, r)
    {
      var rows: seq<nat> := Enumerate<nat>(d.table.Keys);
      row := None;
      var i := 0;
      while i < |rows|
        invariant 0 <= i <= |rows|
        invariant row.Some? ==> Claimable(d, row.value)
        invariant forall j | 0 <= j < i && Claimable(d, rows[j]) ::
          row.Some? && NoLater(d.table[row.value], d.table[rows[j]])
      {
        if Claimable(d, rows[i]) &&
           (row.None? || !NoLater(d.table[row.value], d.table[rows[i]])) {
          row := Some(rows[i]);
        }
        i := i + 1;
      }
      forall r | r in d.table && Claimable(d, r)
        ensures row.Some? && NoLater(d.table[row.value], d.table[r])
      {
        assert r in rows;
        var j :| 0 <= j < |rows| && rows[j] == r;
      }
    }

    /** claim: the first claimable row, under a fresh lock and a 30 s lease. */
    method ClaimRow() returns (row: Option<nat>)
      requires Valid() && worker !in d.jobs
      modifies this`d
      ensures Valid()
      ensures match row
        case None => d == old(d) && forall r | r in d.table :: !Claimable(d, r)
        case Some(r) => FirstClaimable(old(d), r) && d == Do(old(d), window, Take(worker, r))
    {
      row := SelectRow();
      if row.Some? {
        var r := row.value;
        ClaimKeeps(d, window, worker, r);
        var lock := d.nextLock;
        var job := Job(r, lock, d.table[r].event, d.now, None);
        var entry := d.table[r].(lease := Some(Lease(lock, d.now + LEASE)));
        d := d.(
          table := d.table[r := entry], nextLock := lock + 1, jobs := d.jobs[worker := job]);
        assert d == Claimed(old(d), worker, r);
      }
    }

    /** publishData: hand the message to the broker, which ignores an id it knows. */
    method PublishRow(fate: Fate) returns (ok: bool)
      requires Valid() && worker in d.jobs && d.jobs[worker].outcome.None?
      modifies this`d
      ensures Valid() && d == Do(old(d), window, Publish(worker, fate)) && ok == (fate == Accepted)
    {
      PublishKeeps(d, window, worker, fate);
      var job := d.jobs[worker];
      ok := fate == Accepted;
      if fate != Lost && !Remembers(d, window, job.event) {
        d := d.(log := d.log + [Logged(job.event, d.now)]);
      }
      d := d.(jobs := d.jobs[worker := job.(outcome := Some(ok))]);
    }

    /** UPDATE ... SET published_at ... WHERE id = ? AND locked_by = ?. */
    method MarkPublished()
      requires Valid() && worker in d.jobs && d.jobs[worker].outcome == Some(true)
      modifies this`d
      ensures Valid() && d == Do(old(d), window, Settle(worker))
    {
      SettleKeeps(d, window, worker);
      var job := d.jobs[worker];
      var table := d.table;
      if Holds(d, job) {
        table := table[job.row := table[job.row].(publishedAt := Some(d.now), lease := None)];
      }
      d := d.(table := table, jobs := d.jobs - {worker});
      assert d == Settled(old(d), worker);
    }

    /** reschedule: the second assignment sees the counter the first one raised. */
    method Reschedule()
      requires Valid() && worker in d.jobs && d.jobs[worker].outcome == Some(false)
      modifies this`d
      ensures Valid() && d == Do(old(d), window, Settle(worker))
    {
      SettleKeeps(d, window, worker);
      var job := d.jobs[worker];
      var table := d.table;
      if Holds(d, job) {
        var attempts := table[job.row].attempts + 1;
        var availableAt := d.now + 1000 * Backoff(attempts);
        table := table[job.row := table[job.row].(
          attempts := attempts, availableAt := availableAt, lease := None)];
      }
      d := d.(table := table, jobs := d.jobs - {worker});
      assert d == Settled(old(d), worker);
    }

    method SettleRow(ok: bool)
      requires Valid() && worker in d.jobs && d.jobs[worker].outcome == Some(ok)
      modifies this`d
      ensures Valid() && worker !in d.jobs && d == Do(old(d), window, Settle(worker))
    {
      if ok {
        MarkPublished();
      } else {
        Reschedule();
      }
    }

    /** Whatever the others do meanwhile. */
    method LetOthers(steps: seq<Step>)
      requires Valid() && AllForeign(steps, worker)
      modifies this`d
      ensures Valid() && d == DoAll(old(d), window, steps)
      ensures worker in d.jobs <==> worker in old(d).jobs
      ensures worker in d.jobs ==> d.jobs[worker] == old(d).jobs[worker]
    {
      var i := 0;
      while i < |steps|
        invariant 0 <= i <= |steps| && Valid()
        invariant d == DoAll(old(d), window, steps[..i])
        invariant worker in d.jobs <==> worker in old(d).jobs
        invariant worker in d.jobs ==> d.jobs[worker] == old(d).jobs[worker]
      {
        assert steps[..i + 1][..i] == steps[..i];
        assert Foreign(steps[i], worker);
        DoKeeps(d, window, steps[i]);
        d := Do(d, window, steps[i]);
        i := i + 1;
      }
      assert steps[..i] == steps;
    }

    /** DispatchOnce: claim, publish, mark or reschedule, with other workers' steps
        in between. */
    method DispatchOnce(during: seq<Step>, fate: Fate, after: seq<Step>) returns (row: Option<nat>)
      requires Valid() && worker !in d.jobs
      requires AllForeign(during, worker) && AllForeign(after, worker)
      modifies this`d
      ensures Valid() && worker !in d.jobs
      ensures match row
        case None => d == old(d) && forall r | r in d.table :: !Claimable(d, r)
        case Some(r) =>
          && FirstClaimable(old(d), r)
          && d == Dispatched(old(d), window, worker, r, during, fate, after)
    {
      row := ClaimRow();
      if row.None? {
        return;
      }
      LetOthers(during);
      var ok := PublishRow(fate);
      LetOthers(after);
      SettleRow(ok);
    }
  }

  /** One dispatch, step by step. */
  ghost function Dispatched(
    d: Dispatch, window: nat, w: nat, row: nat, during: seq<Step>, fate: Fate, after: seq<Step>)
    : Dispatch
  {
    var sent := Do(DoAll(Do(d, window, Take(w, row)), window, during), window, Publish(w, fate));
    Do(DoAll(sent, window, after), window, Settle(w))
  }

  lemma {:induction false} JobUntouched(d: Dispatch, window: nat, w: nat, steps: seq<Step>)
    requires AllForeign(steps, w) && w in d.jobs
    ensures w in DoAll(d, window, steps).jobs && DoAll(d, window, steps).jobs[w] == d.jobs[w]
  {
    if steps != [] {
      var prior := steps[..|steps| - 1];
      assert forall i | 0 <= i < |prior| :: prior[i] == steps[i];
      JobUntouched(d, window, w, prior);
      assert Foreign(steps[|steps| - 1], w);
    }
  }

  lemma SettlesIfTimely(d: Dispatch, window: nat, w: nat)
    requires Inv(d, window) && w in d.jobs && d.jobs[w].outcome.Some?
    requires d.jobs[w].row in d.table && d.now <= d.jobs[w].since + LEASE
    ensures var job, t := d.jobs[w], Do(d, window, Settle(w));
      && job.row in t.table
      && t.table[job.row] ==
         if job.outcome.value then Marked(d.table[job.row], d.now)
         else Rescheduled(d.table[job.row], d.now)
  {
    assert JobOk(d, d.jobs[w]);
  }

  /** While its worker is in time, nobody else touches a claimed row. */
  ghost predicate Kept(d: Dispatch, w: nat, row: nat, entry: Entry) {
    && w in d.jobs && d.jobs[w].row == row && row < d.nextRow
    && (row in d.table ==> d.table[row] == entry)
  }

  lemma StepKeepsClaimed(d: Dispatch, window: nat, w: nat, row: nat, entry: Entry, step: Step)
    requires Inv(d, window) && Kept(d, w, row, entry) && Foreign(step, w)
    requires d.now <= d.jobs[w].since + LEASE
    ensures Kept(Do(d, window, step), w, row, entry)
  {
    assert JobOk(d, d.jobs[w]);
    match step
    case Settle(v) =>
      if v in d.jobs && d.jobs[v].outcome.Some? {
        assert Apart(d.jobs[v], d.jobs[w]);
      }
    case _ =>
  }

  lemma {:induction false} ClaimedIsKept(
    d: Dispatch, window: nat, w: nat, row: nat, entry: Entry, steps: seq<Step>)
    requires Inv(d, window) && Kept(d, w, row, entry) && AllForeign(steps, w)
    requires DoAll(d, window, steps).now <= d.jobs[w].since + LEASE
    ensures Kept(DoAll(d, window, steps), w, row, entry)
  {
    if steps != [] {
      var prior, last := steps[..|steps| - 1], steps[|steps| - 1];
      assert forall i | 0 <= i < |prior| :: prior[i] == steps[i];
      JobUntouched(d, window, w, prior);
      RunKeeps(d, window, prior);
      ClaimedIsKept(d, window, w, row, entry, prior);
      assert Foreign(last, w);
      StepKeepsClaimed(DoAll(d, window, prior), window, w, row, entry, last);
    }
  }

  /** What a settled row looks like, `before` being the row as it was claimed: it is
      published, or back with one attempt more and the wait that follows from it. */
  ghost predicate SettledAs(t: Dispatch, row: nat, before: Entry, accepted: bool) {
    && row in t.table
    && if accepted then
         && t.table[row] == before.(publishedAt := Some(t.now), lease := None)
         && InLog(t, before.event)
       else
         && t.table[row].event == before.event && t.table[row].publishedAt.None?
         && t.table[row].lease.None? && t.table[row].attempts == before.attempts + 1
         && t.table[row].availableAt == t.now + 1000 * WaitSeconds(before.attempts)
  }

  /** The last stage: a worker that settles in time has its way. */
  lemma SettleStage(d: Dispatch, window: nat, w: nat, row: nat, before: Entry, accepted: bool)
    requires Inv(d, window) && w in d.jobs && row in d.table && before.publishedAt.None?
    requires d.jobs[w].row == row && d.table[row] == before.(lease := d.table[row].lease)
    requires d.jobs[w].outcome == Some(accepted) && d.now <= d.jobs[w].since + LEASE
    ensures SettledAs(Do(d, window, Settle(w)), row, before, accepted)
  {
    assert JobOk(d, d.jobs[w]);
    SettlesIfTimely(d, window, w);
    RescheduleWaits(d.table[row], d.now);
    if accepted {
      LogGrows(d, Do(d, window, Settle(w)), before.event);
    }
  }

  /** The stages before: the worker still has its job, and the protocol holds. */
  lemma PublishStage(d: Dispatch, window: nat, w: nat, job: Job, steps: seq<Step>, fate: Fate)
    requires Inv(d, window) && w in d.jobs && d.jobs[w] == job && job.outcome.None?
    requires AllForeign(steps, w)
    ensures var t := Do(DoAll(d, window, steps), window, Publish(w, fate));
      Inv(t, window) && w in t.jobs && t.jobs[w] == job.(outcome := Some(fate == Accepted))
  {
    RunKeeps(d, window, steps);
    JobUntouched(d, window, w, steps);
    DoKeeps(DoAll(d, window, steps), window, Publish(w, fate));
  }

  lemma {:induction false} ClockNeverGoesBack(d: Dispatch, window: nat, steps: seq<Step>)
    ensures d.now <= DoAll(d, window, steps).now
  {
    if steps != [] {
      ClockNeverGoesBack(d, window, steps[..|steps| - 1]);
    }
  }

  /** The row is kept up to the publish, and from there to the end. */
  lemma KeptToTheEnd(
    d1: Dispatch, window: nat, w: nat, row: nat, job: Job, entry: Entry, during: seq<Step>,
    fate: Fate, after: seq<Step>)
    requires Inv(d1, window) && Kept(d1, w, row, entry) && d1.jobs[w] == job && job.outcome.None?
    requires AllForeign(during, w) && AllForeign(after, w)
    requires var d3 := Do(DoAll(d1, window, during), window, Publish(w, fate));
      DoAll(d3, window, after).now <= job.since + LEASE
    ensures var d3 := Do(DoAll(d1, window, during), window, Publish(w, fate));
      Kept(DoAll(d3, window, after), w, row, entry)
  {
    var d2 := DoAll(d1, window, during);
    var d3 := Do(d2, window, Publish(w, fate));
    ClockNeverGoesBack(d3, window, after);
    JobUntouched(d1, window, w, during);
    ClaimedIsKept(d1, window, w, row, entry, during);
    PublishStage(d1, window, w, job, during, fate);
    ClaimedIsKept(d3, window, w, row, entry, after);
  }

  /** A dispatch that is done within its lease, with its row not erased, has its way:
      after an accepted publish the row is published and the broker has its event,
      otherwise the row is back, with one more attempt counted and the wait that goes
      with it; nobody has touched it in between. */
  lemma TimelyDispatchSettles(
    d: Dispatch, window: nat, w: nat, row: nat, during: seq<Step>, fate: Fate, after: seq<Step>)
    requires Inv(d, window) && w !in d.jobs && Claimable(d, row)
    requires AllForeign(during, w) && AllForeign(after, w)
    requires row in Dispatched(d, window, w, row, during, fate, after).table
    requires Dispatched(d, window, w, row, during, fate, after).now <= d.now + 30_000
    ensures SettledAs(
      Dispatched(d, window, w, row, during, fate, after), row, d.table[row], fate == Accepted)
  {
    var d1 := Do(d, window, Take(w, row));
    ClaimKeeps(d, window, w, row);
    var job := Job(row, d.nextLock, d.table[row].event, d.now, None);
    assert EntryOk(d, row, d.table[row]);
    KeptToTheEnd(d1, window, w, row, job, Leased(d, row), during, fate, after);
    PublishStage(d1, window, w, job, during, fate);
    var d3 := Do(DoAll(d1, window, during), window, Publish(w, fate));
    RunKeeps(d3, window, after);
    JobUntouched(d3, window, w, after);
    SettleStage(DoAll(d3, window, after), window, w, row, d.table[row], fate == Accepted);
  }
}
