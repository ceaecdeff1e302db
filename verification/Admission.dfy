/**
 Admission of extraction requests of one user: a sliding window of five per
 minute and one at a time.  The transaction's statements read the clock one by
 one, and other requests finish in between.  Times are in milliseconds.
 */
module Admission {
  import opened Prelude

  const WINDOW := 60_000
  const ACTIVE := 20_000
  const LIMIT := 5
  /** A run is cut at 15 s and its finishing statement at 3 s. */
  const LONGEST_RUN := 18_000

  datatype Row = Row(started: int, finished: Option<int>)

  /** How far the transaction that holds the user's lock has come; `gone` are the
      rows it has deleted. */
  datatype Phase =
    | Unlocked | Locked | Purged(gone: set<nat>) | Counted(gone: set<nat>)
    | Inserted(gone: set<nat>, at: int)

  /** `admitted` are the starts of all admissions so far, row `i` being the `i`th;
      `running` are the requests between admission and the end of their run. */
  datatype State = State(
    rows: map<nat, Row>, admitted: seq<int>, running: set<nat>, phase: Phase, now: int)

  function Start(): State { State(map[], [], {}, Unlocked, 0) }

  datatype Step =
    | Wait(millis: nat)
    | Lock | Purge | Count | Insert | Commit | Rollback
    | Finish(request: nat)
    /** The finishing statement failed, or the worker died. */
    | Vanish(request: nat)

  function Expired(s: State): set<nat> {
    set id | id in s.rows && s.rows[id].started <= s.now - WINDOW
  }

  predicate Active(s: State, gone: set<nat>) {
    exists id | id in s.rows ::
      id !in gone && s.rows[id].finished.None? && s.rows[id].started > s.now - ACTIVE
  }

  /** What the counting statement lets through. */
  predicate Admissible(s: State, gone: set<nat>) {
    !Active(s, gone) && |s.rows.Keys - gone| < LIMIT
  }

  function Committed(s: State): State
    requires s.phase.Inserted?
  {
    var id := |s.admitted|;
    s.(rows := (s.rows - s.phase.gone)[id := Row(s.phase.at, None)],
       admitted := s.admitted + [s.phase.at], running := s.running + {id}, phase := Unlocked)
  }

  function Finished(s: State, id: nat): State {
    s.(rows := if id in s.rows then s.rows[id := s.rows[id].(finished := Some(s.now))] else s.rows,
       running := s.running - {id})
  }

  /** One step; a step that is not enabled does nothing. */
  function Do(s: State, step: Step): State {
    match step
    case Wait(millis) => s.(now := s.now + millis)
    case Lock => if s.phase.Unlocked? then s.(phase := Locked) else s
    case Purge => if s.phase.Locked? then s.(phase := Purged(Expired(s))) else s
    case Count =>
      if !s.phase.Purged? then s
      else s.(phase := if Admissible(s, s.phase.gone) then Counted(s.phase.gone) else Unlocked)
    case Insert => if s.phase.Counted? then s.(phase := Inserted(s.phase.gone, s.now)) else s
    case Commit => if s.phase.Inserted? then Committed(s) else s
    case Rollback => s.(phase := Unlocked)
    case Finish(id) => if id in s.running then Finished(s, id) else s
    case Vanish(id) => s.(running := s.running - {id})
  }

  function DoAll(s: State, steps: seq<Step>): State {
    if steps == [] then s else Do(DoAll(s, steps[..|steps| - 1]), steps[|steps| - 1])
  }

  // ---------- At most five in every minute ----------

  ghost predicate Has(gone: set<nat>, s: State) {
    forall id | id in gone :: id in s.rows && s.rows[id].started <= s.now - WINDOW
  }

  /** Every admission is on record or a minute old; the record keeps its start. */
  ghost predicate OnRecord(s: State) {
    && (forall i | 0 <= i < |s.admitted| :: i in s.rows || s.admitted[i] <= s.now - WINDOW)
    && (forall id | id in s.rows :: id < |s.admitted| && s.rows[id].started == s.admitted[id])
    && (forall i | 0 <= i < |s.admitted| :: s.admitted[i] <= s.now)
    && (forall i, j | 0 <= i < j < |s.admitted| :: s.admitted[i] <= s.admitted[j])
  }

  /** The last five admissions before the one under way are not all recent. */
  ghost predicate Room(s: State, at: int) {
    |s.admitted| >= LIMIT ==> s.admitted[|s.admitted| - LIMIT] <= at - WINDOW
  }

  ghost predicate PhaseOk(s: State) {
    match s.phase
    case Unlocked => true
    case Locked => true
    case Purged(gone) => Has(gone, s)
    case Counted(gone) => Has(gone, s) && Room(s, s.now)
    case Inserted(gone, at) =>
      && Has(gone, s) && Room(s, at) && at <= s.now
      && forall i | 0 <= i < |s.admitted| :: s.admitted[i] <= at
  }

  /** Any six admissions in a row span a minute or more. */
  ghost predicate Spread(admitted: seq<int>) {
    forall i | 0 <= i < |admitted| - LIMIT :: admitted[i] + WINDOW <= admitted[i + LIMIT]
  }

  ghost predicate Inv(s: State) {
    OnRecord(s) && PhaseOk(s) && Spread(s.admitted)
  }

  /** Fewer than five rows left: one of the last five admissions is a minute old,
      so the first of them is. */
  lemma FewLeaveRoom(s: State)
    requires OnRecord(s) && s.phase.Purged? && Has(s.phase.gone, s)
    requires |s.rows.Keys - s.phase.gone| < LIMIT
    ensures Room(s, s.now)
  {
    if |s.admitted| >= LIMIT {
      var first := |s.admitted| - LIMIT;
      var i := MissingOne(first, LIMIT, s.rows.Keys - s.phase.gone);
      assert i in s.phase.gone || i !in s.rows;
      assert s.admitted[i] <= s.now - WINDOW;
      assert first == i || s.admitted[first] <= s.admitted[i];
    }
  }

  lemma SpreadGrows(admitted: seq<int>, at: int)
    requires Spread(admitted)
    requires |admitted| >= LIMIT ==> admitted[|admitted| - LIMIT] <= at - WINDOW
    ensures Spread(admitted + [at])
  {
    var all := admitted + [at];
    forall i | 0 <= i < |all| - LIMIT
      ensures all[i] + WINDOW <= all[i + LIMIT]
    {
      assert i + LIMIT < |admitted| ==> admitted[i] + WINDOW <= admitted[i + LIMIT];
    }
  }

  /** The rows left after the purge, and the new one. */
  lemma RowsGrow(s: State)
    requires OnRecord(s) && s.phase.Inserted? && Has(s.phase.gone, s) && s.phase.at <= s.now
    ensures var t := Committed(s);
      && (forall i | 0 <= i < |t.admitted| :: i in t.rows || t.admitted[i] <= t.now - WINDOW)
      && (forall id | id in t.rows ::
            id < |t.admitted| && t.rows[id].started == t.admitted[id])
  {
    var t := Committed(s);
    forall i | 0 <= i < |t.admitted|
      ensures i in t.rows || t.admitted[i] <= t.now - WINDOW
    {
      assert i < |s.admitted| ==> i in s.rows || s.admitted[i] <= s.now - WINDOW;
    }
  }

  lemma CommitKeeps(s: State)
    requires Inv(s) && s.phase.Inserted?
    ensures Inv(Committed(s))
  {
    RowsGrow(s);
    SpreadGrows(s.admitted, s.phase.at);
  }

  lemma WaitKeeps(s: State, millis: nat)
    requires Inv(s)
    ensures Inv(s.(now := s.now + millis))
  {
  }

  /** Only the starts on record matter. */
  ghost predicate SameStarts(s: State, t: State) {
    && t.rows.Keys == s.rows.Keys && t.admitted == s.admitted && t.now == s.now
    && forall id | id in s.rows :: id in t.rows && t.rows[id].started == s.rows[id].started
  }

  lemma SameRecord(s: State, t: State)
    requires OnRecord(s) && SameStarts(s, t)
    ensures OnRecord(t)
  {
    forall id | id in t.rows
      ensures id < |t.admitted| && t.rows[id].started == t.admitted[id]
    {
      assert id in s.rows;
    }
    forall i | 0 <= i < |t.admitted|
      ensures i in t.rows || t.admitted[i] <= t.now - WINDOW
    {
      assert i in s.rows || s.admitted[i] <= s.now - WINDOW;
      assert i in s.rows ==> i in t.rows;
    }
  }

  lemma SameHas(gone: set<nat>, s: State, t: State)
    requires Has(gone, s) && SameStarts(s, t)
    ensures Has(gone, t)
  {
  }

  lemma SamePhase(s: State, t: State)
    requires PhaseOk(s) && SameStarts(s, t) && t.phase == s.phase
    ensures PhaseOk(t)
  {
    match s.phase
    case Purged(gone) => SameHas(gone, s, t);
    case Counted(gone) => SameHas(gone, s, t);
    case Inserted(gone, _) => SameHas(gone, s, t);
    case _ =>
  }

  lemma FinishKeeps(s: State, id: nat)
    requires Inv(s)
    ensures Inv(Finished(s, id))
  {
    SameRecord(s, Finished(s, id));
    SamePhase(s, Finished(s, id));
  }

  /** A change of phase and of who is running leaves the record alone. */
  lemma PhaseKeeps(s: State, phase: Phase, running: set<nat>)
    requires Inv(s) && PhaseOk(s.(phase := phase))
    ensures Inv(s.(phase := phase, running := running))
  {
    var t := s.(phase := phase);
    SameRecord(s, s.(phase := phase, running := running));
    SamePhase(t, t.(running := running));
  }

  lemma TransactionKeeps(s: State, step: Step)
    requires Inv(s) && (step.Lock? || step.Purge? || step.Count? || step.Insert? || step.Rollback?)
    ensures Inv(Do(s, step))
  {
    if step.Count? && s.phase.Purged? && Admissible(s, s.phase.gone) {
      FewLeaveRoom(s);
    }
    assert PhaseOk(s.(phase := Do(s, step).phase));
    PhaseKeeps(s, Do(s, step).phase, s.running);
  }

  lemma DoKeeps(s: State, step: Step)
    requires Inv(s)
    ensures Inv(Do(s, step))
  {
    match step
    case Wait(millis) => WaitKeeps(s, millis);
    case Finish(id) => if id in s.running { FinishKeeps(s, id); }
    case Vanish(id) => PhaseKeeps(s, s.phase, s.running - {id});
    case Commit => if s.phase.Inserted? { CommitKeeps(s); }
    case _ => TransactionKeeps(s, step);
  }

  lemma {:induction false} RunKeeps(steps: seq<Step>)
    ensures Inv(DoAll(Start(), steps))
  {
    if steps != [] {
      RunKeeps(steps[..|steps| - 1]);
      DoKeeps(DoAll(Start(), steps[..|steps| - 1]), steps[|steps| - 1]);
    }
  }

  /** In every run, every window of a minute holds at most five admissions. */
  lemma AtMostFivePerMinute(steps: seq<Step>, window: int, hits: set<nat>)
    requires var admitted := DoAll(Start(), steps).admitted;
      forall i | i in hits :: i < |admitted| && window <= admitted[i] < window + 60_000
    ensures |hits| <= 5
  {
    RunKeeps(steps);
    var s := DoAll(Start(), steps);
    if hits != {} {
      var first := LeastOf(hits);
      forall i | i in hits
        ensures i < first + LIMIT
      {
        SixSpanAMinute(s, first, i);
      }
      IntervalHolds(first, LIMIT, hits);
    }
  }

  lemma SixSpanAMinute(s: State, i: nat, j: nat)
    requires Inv(s) && i <= j < |s.admitted|
    ensures i + LIMIT <= j ==> s.admitted[i] + WINDOW <= s.admitted[j]
  {
    if i + LIMIT <= j {
      assert s.admitted[i] + WINDOW <= s.admitted[i + LIMIT];
      assert s.admitted[i + LIMIT] <= s.admitted[j];
    }
  }

  lemma LeastOf(c: set<nat>) returns (least: nat)
    requires c != {}
    ensures least in c && forall i | i in c :: least <= i
  {
    var x :| x in c;
    if c == {x} {
      least := x;
    } else {
      var rest := c - {x};
      assert c == rest + {x};
      least := LeastOf(rest);
      if x < least {
        least := x;
      }
    }
  }

  lemma {:induction false} IntervalHolds(first: nat, n: nat, c: set<nat>)
    requires forall i | i in c :: first <= i < first + n
    ensures |c| <= n
    decreases n
  {
    if n == 0 {
      assert c == {};
    } else {
      IntervalHolds(first, n - 1, c - {first + n - 1});
    }
  }

  lemma {:induction false} SubsetSize(a: set<nat>, b: set<nat>)
    requires a <= b
    ensures |a| <= |b|
  {
    if a != {} {
      var x :| x in a;
      SubsetSize(a - {x}, b - {x});
    }
  }

  // ---------- At most one in progress ----------

  /** No run is still going `limit` after its admission. */
  ghost predicate Within(s: State, limit: int) {
    forall id | id in s.running :: id < |s.admitted| && s.now < s.admitted[id] + limit
  }

  /** No run has outlived the activity limit. */
  ghost predicate Timely(s: State) {
    Within(s, ACTIVE)
  }

  ghost predicate AlwaysTimely(steps: seq<Step>) {
    forall n | 0 <= n <= |steps| :: Timely(DoAll(Start(), steps[..n]))
  }

  /** A running request has an unfinished row; once the count has passed, none runs. */
  ghost predicate Alone(s: State) {
    && |s.running| <= 1
    && (forall id | id in s.running :: id in s.rows && s.rows[id].finished.None?)
    && (s.phase.Counted? || s.phase.Inserted? ==> s.running == {})
  }

  lemma RunningIsActive(s: State, id: nat)
    requires Inv(s) && Timely(s) && Alone(s) && s.phase.Purged? && id in s.running
    ensures Active(s, s.phase.gone)
  {
    assert id in s.rows && id < |s.admitted| && s.now < s.admitted[id] + ACTIVE;
    assert s.rows[id].started == s.admitted[id] > s.now - ACTIVE;
    assert id !in s.phase.gone;
  }

  lemma CountSeesRunning(s: State)
    requires Inv(s) && Timely(s) && Alone(s) && s.phase.Purged? && Admissible(s, s.phase.gone)
    ensures s.running == {}
  {
    if s.running != {} {
      var id :| id in s.running;
      RunningIsActive(s, id);
    }
  }

  lemma AloneKept(s: State, step: Step)
    requires Inv(s) && Timely(s) && Alone(s)
    ensures Alone(Do(s, step))
  {
    match step
    case Count =>
      if s.phase.Purged? && Admissible(s, s.phase.gone) { CountSeesRunning(s); }
    case Finish(id) => RemoveOne(s.running, id);
    case Vanish(id) => RemoveOne(s.running, id);
    case _ =>
  }

  lemma RemoveOne(c: set<nat>, id: nat)
    ensures |c - {id}| <= |c|
  {
    SubsetSize(c - {id}, c);
  }

  /** If no run outlives the activity limit, at most one is ever in progress. */
  lemma {:induction false} AtMostOneInProgress(steps: seq<Step>)
    requires AlwaysTimely(steps)
    ensures Alone(DoAll(Start(), steps)) && |DoAll(Start(), steps).running| <= 1
  {
    if steps != [] {
      var prior := steps[..|steps| - 1];
      forall n | 0 <= n <= |prior|
        ensures Timely(DoAll(Start(), prior[..n]))
      {
        assert prior[..n] == steps[..n];
      }
      AtMostOneInProgress(prior);
      RunKeeps(prior);
      assert prior[..|prior|] == prior;
      AloneKept(DoAll(Start(), prior), steps[|steps| - 1]);
    }
  }

  /** In particular if every run keeps to its own limits, 15 s and 3 s to finish. */
  lemma AtMostOneWithinLimits(steps: seq<Step>)
    requires forall n | 0 <= n <= |steps| :: Within(DoAll(Start(), steps[..n]), LONGEST_RUN + 1)
    ensures |DoAll(Start(), steps).running| <= 1
  {
    forall n | 0 <= n <= |steps|
      ensures Timely(DoAll(Start(), steps[..n]))
    {
      assert Within(DoAll(Start(), steps[..n]), LONGEST_RUN + 1);
    }
    AtMostOneInProgress(steps);
  }

  /** One undisturbed admission. */
  function Admit(s: State): State {
    Do(Do(Do(Do(Do(s, Lock), Purge), Count), Insert), Commit)
  }

  lemma ClearIsAdmissible(s: State, gone: set<nat>)
    requires |s.rows.Keys| < LIMIT
    requires forall id | id in s.rows :: s.rows[id].started <= s.now - ACTIVE
    ensures Admissible(s, gone)
  {
    SubsetSize(s.rows.Keys - gone, s.rows.Keys);
  }

  lemma AdmitsIfAdmissible(s: State, gone: set<nat>)
    requires s.phase.Unlocked? && gone == Expired(s)
    requires Admissible(s.(phase := Purged(gone)), gone)
    ensures Admit(s) == Committed(s.(phase := Inserted(gone, s.now)))
  {
  }

  lemma AdmitsWhenClear(s: State)
    requires s.phase.Unlocked? && |s.rows.Keys| < LIMIT
    requires forall id | id in s.rows :: s.rows[id].started <= s.now - ACTIVE
    ensures Admit(s) == Committed(s.(phase := Inserted(Expired(s), s.now)))
  {
    ClearIsAdmissible(s.(phase := Purged(Expired(s))), Expired(s));
    AdmitsIfAdmissible(s, Expired(s));
  }

  /** The admissions of the last minute. */
  ghost function Recent(s: State): set<nat> {
    set i: nat | i < |s.admitted| && s.admitted[i] > s.now - 60_000
  }

  lemma RowsLeftAreRecent(s: State)
    requires OnRecord(s)
    ensures s.rows.Keys - Expired(s) == Recent(s)
  {
    forall i: nat
      ensures i in s.rows.Keys - Expired(s) <==> i in Recent(s)
    {
      assert i < |s.admitted| ==> i in s.rows || s.admitted[i] <= s.now - WINDOW;
    }
  }

  lemma NotAdmitted(s: State, gone: set<nat>)
    requires s.phase.Unlocked? && gone == Expired(s)
    requires !Admissible(s.(phase := Purged(gone)), gone)
    ensures Admit(s) == s
  {
  }

  /** A request is admitted exactly if the last minute saw fewer than five admissions
      and no run younger than 20 seconds is unfinished. */
  lemma AdmitsExactly(s: State)
    requires Inv(s) && s.phase.Unlocked?
    ensures Admit(s).admitted ==
      if |Recent(s)| < 5 &&
         !exists id :: id in s.rows && s.rows[id].finished.None? && s.rows[id].started > s.now - 20_000
      then s.admitted + [s.now] else s.admitted
  {
    var t, gone := s.(phase := Purged(Expired(s))), Expired(s);
    RowsLeftAreRecent(s);
    assert Active(t, gone) <==>
      exists id :: id in s.rows && s.rows[id].finished.None? && s.rows[id].started > s.now - 20_000;
    if Admissible(t, gone) {
      AdmitsIfAdmissible(s, gone);
    } else {
      NotAdmitted(s, gone);
    }
  }

  /** The state with one admission, made at time 0 and still running. */
  function OneRunning(now: int): State {
    State(map[0 := Row(0, None)], [0], {0}, Unlocked, now)
  }

  lemma FirstAdmission(s: State)
    requires s == Start()
    ensures Admit(s) == OneRunning(0)
  {
    AdmitsWhenClear(s);
    assert s.rows - Expired(s) == map[];
    assert map[][0 := Row(0, None)] == map[0 := Row(0, None)];
  }

  lemma SecondAdmission(s: State, after: nat)
    requires s == OneRunning(after) && after >= ACTIVE
    ensures Admit(s).running == {0, 1}
  {
    assert s.rows.Keys == {0};
    AdmitsWhenClear(s);
  }

  lemma JoinedAfter(s: State, after: nat)
    requires s == OneRunning(0) && after >= ACTIVE
    ensures Admit(Do(s, Wait(after))).running == {0, 1}
  {
    SecondAdmission(Do(s, Wait(after)), after);
  }

  /** The limit is exact: a run still going any time from 20 seconds after its
      admission on is joined by another. */
  lemma OverlongRunIsJoined(s: State, after: nat)
    requires s == Start() && after >= ACTIVE
    ensures Admit(Do(Admit(s), Wait(after))).running == {0, 1}
  {
    FirstAdmission(s);
    JoinedAfter(Admit(s), after);
  }

  // ---------- The two methods ----------

  datatype Rejection = Busy | RateLimited

  /** What can happen beside a transaction that holds the lock. */
  predicate Beside(step: Step) {
    step.Wait? || step.Finish? || step.Vanish?
  }

  ghost predicate AllBeside(steps: seq<Step>) {
    forall i | 0 <= i < |steps| :: Beside(steps[i])
  }

  /** The state the counting statement sees. */
  ghost function AtCount(s: State, a: seq<Step>, b: seq<Step>): State {
    DoAll(Do(DoAll(Do(s, Lock), a), Purge), b)
  }

  ghost function Examined(s: State, a: seq<Step>, b: seq<Step>): State {
    Do(AtCount(s, a, b), Count)
  }

  /** The verdict of the counting statement: busy comes first. */
  ghost function Verdict(s: State): Option<Rejection> {
    if !s.phase.Purged? || Admissible(s, s.phase.gone) then None
    else if Active(s, s.phase.gone) then Some(Busy)
    else Some(RateLimited)
  }

  ghost function Recorded(s: State, c: seq<Step>, d: seq<Step>): State {
    Do(DoAll(Do(DoAll(s, c), Insert), d), Commit)
  }

  class Admissions {
    var s: State

    ghost predicate Valid()
      reads this
    {
      Inv(s)
    }

    constructor ()
      ensures Valid() && s == Start()
    {
      s := Start();
    }

    /** Time passes and other requests finish. */
    method LetOthers(steps: seq<Step>)
      requires Valid() && AllBeside(steps)
      modifies this
      ensures Valid() && s == DoAll(old(s), steps) && s.phase == old(s).phase
      ensures s.admitted == old(s).admitted
    {
      var i := 0;
      while i < |steps|
        invariant 0 <= i <= |steps| && Valid()
        invariant s == DoAll(old(s), steps[..i]) && s.phase == old(s).phase
        invariant s.admitted == old(s).admitted
      {
        assert steps[..i + 1][..i] == steps[..i];
        assert Beside(steps[i]);
        DoKeeps(s, steps[i]);
        s := Do(s, steps[i]);
        i := i + 1;
      }
      assert steps[..i] == steps;
    }

    method CountActive(gone: set<nat>) returns (active: bool)
      ensures active == Active(s, gone)
    {
      var ids: seq<nat> := Enumerate<nat>(s.rows.Keys);
      var i := 0;
      while i < |ids|
        invariant 0 <= i <= |ids|
        invariant forall j | 0 <= j < i && ids[j] in s.rows ::
          || ids[j] in gone || s.rows[ids[j]].finished.Some?
          || s.rows[ids[j]].started <= s.now - ACTIVE
      {
        assert ids[i] in s.rows;
        var row := s.rows[ids[i]];
        if ids[i] !in gone && row.finished.None? && row.started > s.now - ACTIVE {
          return true;
        }
        i := i + 1;
      }
      forall id | id in s.rows
        ensures id in gone || s.rows[id].finished.Some? || s.rows[id].started <= s.now - ACTIVE
      {
        assert id in ids;
        var j :| 0 <= j < |ids| && ids[j] == id;
      }
      return false;
    }

    /** DELETE ... WHERE started_at <= now - 60 s. */
    method DeleteExpired()
      requires Valid() && s.phase.Locked?
      modifies this
      ensures Valid() && s == Do(old(s), Purge)
    {
      DoKeeps(s, Purge);
      s := s.(phase := Purged(set id | id in s.rows && s.rows[id].started <= s.now - WINDOW));
    }

    /** SELECT COUNT(*), SUM(unfinished and younger than 20 s), and the verdict. */
    method CheckCounts() returns (rejection: Option<Rejection>)
      requires Valid() && s.phase.Purged?
      modifies this
      ensures Valid() && s == Do(old(s), Count) && rejection == Verdict(old(s))
      ensures if rejection.None? then s.phase.Counted? else s.phase.Unlocked?
    {
      DoKeeps(s, Count);
      var gone := s.phase.gone;
      var active := CountActive(gone);
      var count := |s.rows.Keys - gone|;
      if active {
        s := s.(phase := Unlocked);
        return Some(Busy);
      }
      if count >= LIMIT {
        s := s.(phase := Unlocked);
        return Some(RateLimited);
      }
      s := s.(phase := Counted(gone));
      return None;
    }

    /** INSERT, with its own reading of the clock. */
    method InsertRow()
      requires Valid() && s.phase.Counted?
      modifies this
      ensures Valid() && s == Do(old(s), Insert)
    {
      DoKeeps(s, Insert);
      s := s.(phase := Inserted(s.phase.gone, s.now));
    }

    method CommitRow() returns (id: nat)
      requires Valid() && s.phase.Inserted?
      modifies this
      ensures Valid() && s == Do(old(s), Commit) && s.phase.Unlocked?
      ensures id == |old(s).admitted| && |s.admitted| == id + 1 && id in s.running
    {
      DoKeeps(s, Commit);
      id := |s.admitted|;
      s := Committed(s);
    }

    /** Lock the user's row, delete what is a minute old. */
    method LockAndDelete(a: seq<Step>)
      requires Valid() && s.phase.Unlocked? && AllBeside(a)
      modifies this
      ensures Valid() && s == Do(DoAll(Do(old(s), Lock), a), Purge)
      ensures s.phase.Purged? && s.admitted == old(s).admitted
    {
      DoKeeps(s, Lock);
      s := s.(phase := Locked);
      LetOthers(a);
      DeleteExpired();
    }

    method CountLater(b: seq<Step>) returns (rejection: Option<Rejection>)
      requires Valid() && s.phase.Purged? && AllBeside(b)
      modifies this
      ensures Valid() && s == Do(DoAll(old(s), b), Count) && s.admitted == old(s).admitted
      ensures rejection == Verdict(DoAll(old(s), b))
      ensures if rejection.None? then s.phase.Counted? else s.phase.Unlocked?
    {
      LetOthers(b);
      rejection := CheckCounts();
    }

    /** The first half: lock, delete, count. */
    method Examine(a: seq<Step>, b: seq<Step>) returns (rejection: Option<Rejection>)
      requires Valid() && s.phase.Unlocked? && AllBeside(a) && AllBeside(b)
      modifies this
      ensures Valid() && s == Examined(old(s), a, b) && s.admitted == old(s).admitted
      ensures rejection == Verdict(AtCount(old(s), a, b))
      ensures if rejection.None? then s.phase.Counted? else s.phase.Unlocked?
    {
      LockAndDelete(a);
      rejection := CountLater(b);
    }

    /** The second half: insert, commit. */
    method Record(c: seq<Step>, d: seq<Step>) returns (id: nat)
      requires Valid() && s.phase.Counted? && AllBeside(c) && AllBeside(d)
      modifies this
      ensures Valid() && s == Recorded(old(s), c, d) && s.phase.Unlocked?
      ensures id == |old(s).admitted| && |s.admitted| == id + 1 && id in s.running
    {
      LetOthers(c);
      InsertRow();
      LetOthers(d);
      id := CommitRow();
    }

    /** admitExtraction: under the user's lock, delete what is a minute old, count,
        insert, commit; others' steps come between the statements. */
    method AdmitExtraction(a: seq<Step>, b: seq<Step>, c: seq<Step>, d: seq<Step>)
      returns (r: Result<nat, Rejection>)
      requires Valid() && s.phase.Unlocked?
      requires AllBeside(a) && AllBeside(b) && AllBeside(c) && AllBeside(d)
      modifies this
      ensures Valid() && s.phase.Unlocked?
      ensures match Verdict(AtCount(old(s), a, b))
        case Some(reason) =>
          r == Err(reason) && s == Examined(old(s), a, b) && s.admitted == old(s).admitted
        case None =>
          && r == Ok(|old(s).admitted|) && s == Recorded(Examined(old(s), a, b), c, d)
          && |s.admitted| == |old(s).admitted| + 1 && |old(s).admitted| in s.running
    {
      var rejection := Examine(a, b);
      if rejection.Some? {
        return Err(rejection.value);
      }
      var id := Record(c, d);
      return Ok(id);
    }

    /** finishExtraction. */
    method FinishExtraction(id: nat)
      requires Valid() && id in s.running
      modifies this
      ensures Valid() && s == Do(old(s), Finish(id))
      ensures id !in s.running
    {
      DoKeeps(s, Finish(id));
      if id in s.rows {
        s := s.(rows := s.rows[id := s.rows[id].(finished := Some(s.now))]);
      }
      s := s.(running := s.running - {id});
    }
  }
}
