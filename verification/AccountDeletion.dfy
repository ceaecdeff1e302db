/**
 The account-deletion consumer: clean up, report the result, acknowledge.  Any
 of the three may fail, and the stream redelivers what was not acknowledged.
 */
module AccountDeletion {
  import opened Prelude
  import opened Patching
  import opened Ledger
  import opened Erasure
  import opened Runs
  import opened Transactions

  /** A lifecycle message; the user id may fail to parse. */
  datatype Message = Malformed | Deletion(event: string, request: string, user: Option<nat>)

  datatype Status = Completed | Retry

  /** `user` is the account the report is about. */
  datatype Report = Report(event: string, request: string, status: Status, user: nat)

  /** A transaction commits, fails, or commits without the caller learning it. */
  datatype Fate = Commits | Fails | CommitsUnheard

  /** A publish is accepted, lost, or accepted without the caller learning it. */
  datatype Publishing = Accepted | Lost | AcceptedUnheard

  datatype World = World(db: State, reports: seq<Report>)

  ghost predicate Reportable(m: Message) {
    m.Deletion? && m.user.Some? && m.event != "" && m.request != ""
  }

  /** The broker drops a result whose id, event and status, it still remembers. */
  predicate Known(reports: seq<Report>, r: Report) {
    exists i | 0 <= i < |reports| :: reports[i].event == r.event && reports[i].status == r.status
  }

  function Accept(reports: seq<Report>, r: Report, remembers: bool): seq<Report> {
    if remembers && Known(reports, r) then reports else reports + [r]
  }

  /** handleMessage: the tables and reports it leaves, and whether it acknowledged. */
  method HandleMessage(w: World, m: Message, fate: Fate, publishing: Publishing, remembers: bool)
    returns (next: World, acked: bool)
    ensures next == Handled(w, m, fate, publishing, remembers)
    ensures acked == (Reportable(m) ==> publishing == Accepted)
  {
    next := w;
    if m.Malformed? {
      return next, true;
    }
    if m.user.None? || m.event == "" || m.request == "" {
      return next, true;
    }
    var status := Completed;
    if fate != Fails {
      var db := CleanupDeletedAccount(w.db, m.user.value);
      next := next.(db := db);
    }
    if fate != Commits {
      status := Retry;
    }
    if publishing == Lost {
      return next, false;
    }
    next := next.(reports :=
      Accept(next.reports, Report(m.event, m.request, status, m.user.value), remembers));
    return next, publishing == Accepted;
  }

  ghost function Handled(w: World, m: Message, fate: Fate, publishing: Publishing, remembers: bool)
    : World
  {
    if !Reportable(m) then w
    else
      var user := m.user.value;
      var report := Report(m.event, m.request, if fate == Commits then Completed else Retry, user);
      World(
        if fate == Fails then w.db else Erase(w.db, user),
        if publishing == Lost then w.reports else Accept(w.reports, report, remembers))
  }

  /** One step: anything the service does, or a delivery, first or repeated. */
  datatype Step =
    | Serve(action: Action)
    | Deliver(message: Message, fate: Fate, publishing: Publishing, remembers: bool)

  ghost function Next(zones: Zones, w: World, step: Step): World {
    match step
    case Serve(action) => w.(db := Act(zones, w.db, action))
    case Deliver(m, fate, publishing, remembers) => Handled(w, m, fate, publishing, remembers)
  }

  ghost function History(zones: Zones, steps: seq<Step>): World {
    if steps == [] then World(Empty(), [])
    else Next(zones, History(zones, steps[..|steps| - 1]), steps[|steps| - 1])
  }

  ghost predicate Truthful(w: World) {
    && Inv(w.db)
    && forall i | 0 <= i < |w.reports| ::
         w.reports[i].status == Completed ==> w.reports[i].user in w.db.tombstones
  }

  lemma StepTruthful(zones: Zones, w: World, step: Step)
    requires Truthful(w)
    ensures Truthful(Next(zones, w, step)) && w.db.tombstones <= Next(zones, w, step).db.tombstones
  {
    match step
    case Serve(action) =>
      ActInv(zones, w.db, action);
      TombstonesStay(zones, w.db, action);
    case Deliver(m, fate, _, _) =>
      if Reportable(m) {
        EraseInv(w.db, m.user.value);
      }
  }

  /** However deliveries, failures and other users' calls interleave: whenever a
      "completed" report is out, its user owns nothing in any table. */
  lemma {:induction false} CompletedMeansErased(zones: Zones, steps: seq<Step>)
    ensures Truthful(History(zones, steps))
    ensures var w := History(zones, steps);
      forall i | 0 <= i < |w.reports| :: w.reports[i].status == Completed ==>
        w.reports[i].user in w.db.tombstones && OwnsNothing(w.db, w.reports[i].user)
  {
    if steps == [] {
      EmptyInv();
    } else {
      CompletedMeansErased(zones, steps[..|steps| - 1]);
      StepTruthful(zones, History(zones, steps[..|steps| - 1]), steps[|steps| - 1]);
    }
  }

  /** What is acknowledged has been reported: no valid request goes unanswered. */
  lemma AcknowledgedIsReported(
    w: World, m: Message, fate: Fate, publishing: Publishing, remembers: bool)
    requires Reportable(m) && publishing == Accepted
    ensures var next := Handled(w, m, fate, publishing, remembers);
      exists i | 0 <= i < |next.reports| :: next.reports[i].event == m.event &&
        next.reports[i].status == if fate == Commits then Completed else Retry
  {
    var status := if fate == Commits then Completed else Retry;
    var r := Report(m.event, m.request, status, m.user.value);
    var next := Handled(w, m, fate, publishing, remembers);
    if remembers && Known(w.reports, r) {
      var i :| 0 <= i < |w.reports| && w.reports[i].event == r.event && w.reports[i].status == status;
      assert next.reports[i].event == m.event;
    } else {
      assert next.reports[|w.reports|] == r;
    }
  }

  /** A report that is new to the broker says what was asked and how it ended. */
  lemma NewReportIsExact(
    w: World, m: Message, fate: Fate, publishing: Publishing, remembers: bool)
    requires Reportable(m) && publishing != Lost
    requires !exists i | 0 <= i < |w.reports| ::
      w.reports[i].event == m.event &&
      w.reports[i].status == (if fate == Commits then Completed else Retry)
    ensures Handled(w, m, fate, publishing, remembers).reports == w.reports +
      [Report(m.event, m.request, if fate == Commits then Completed else Retry, m.user.value)]
  {
  }

  /** A redelivered request finds the account already clean: it changes no table. */
  lemma RedeliveryIsHarmless(
    w: World, m: Message, publishing: Publishing, remembers: bool, again: Publishing)
    requires Reportable(m)
    ensures var once := Handled(w, m, Commits, publishing, remembers);
      Handled(once, m, Commits, again, true).db == once.db
  {
    EraseTwice(w.db, m.user.value);
  }
}
