/**
 The two resolvers from a wall-clock reading to an instant: the request
 handler's and the series updater's.  A wall-clock reading is written as the
 number of seconds (or nanoseconds) it would denote in UTC.
 */
module LocalTime {
  import opened Prelude

  const HOUR := 3600
  const DAY := 86400

  /** Nanoseconds: whole seconds, the part below a second, and back. */
  function Sec(t: int): int { t / 1_000_000_000 }

  function Frac(t: int): int { t % 1_000_000_000 }

  function Ns(seconds: int): int { seconds * 1_000_000_000 }

  /** The seven places around the reading where the zone's offset is sampled. */
  const PROBES: seq<int> :=
    [-48 * HOUR, -24 * HOUR, -6 * HOUR, 0, 6 * HOUR, 24 * HOUR, 48 * HOUR]

  /** A UTC offset in seconds, within 48 hours. */
  type Offset = o: int | -172800 <= o <= 172800

  /** `offset(t)` is the UTC offset in force at second `t`; `midnight(d)` is the
      second at which the zone's calendar day `d` begins. */
  datatype Zone = Zone(offset: int -> Offset, midnight: int -> int)

  datatype Instant = At(t: int)

  datatype Fold = NoFold | Earlier | Later | OtherFold

  datatype TimeError = BadText | BadZone | Nonexistent | FoldNotAllowed | Ambiguous

  /** What a clock in the zone shows at second `t`. */
  function Local(z: Zone, t: int): int {
    t + z.offset(t)
  }

  /** The same reading at nanosecond precision. */
  function LocalNs(z: Zone, t: int): int {
    t + Ns(z.offset(Sec(t)))
  }

  /** It is the reading of the second, with the fraction kept. */
  function WallNs(z: Zone, t: int): int { Ns(Local(z, Sec(t))) + Frac(t) }

  lemma ReadingNs(z: Zone, t: int)
    ensures LocalNs(z, t) == WallNs(z, t) && Sec(LocalNs(z, t)) == Local(z, Sec(t))
    ensures LocalDay(z, t) == Local(z, Sec(t)) / DAY
  {
    var o: int := z.offset(Sec(t));
    assert t + Ns(o) == Ns(Sec(t) + o) + Frac(t);
    SecondsAdd(Sec(t) + o, Frac(t));
  }

  lemma SecondsAdd(s: int, d: int)
    ensures Sec(Ns(s) + d) == s + Sec(d)
  {
  }

  /** The zone's calendar day at instant `t`, in nanoseconds. */
  function LocalDay(z: Zone, t: int): int {
    Sec(LocalNs(z, t)) / DAY
  }

  /** Every calendar day of the zone begins at a local 00:00:00. */
  ghost predicate HasMidnights(z: Zone) {
    forall d :: Local(z, z.midnight(d)) == d * DAY
  }

  // ---------- The candidates both resolvers look for ----------

  ghost predicate Probed(z: Zone, w: int, o: int) {
    exists i :: 0 <= i < |PROBES| && z.offset(w + PROBES[i]) == o
  }

  /** `t` reads `w`, and the offset it does so with was seen by a probe. */
  ghost predicate IsCandidate(z: Zone, w: int, t: int) {
    Local(z, t) == w && Probed(z, w, w - t)
  }

  /** The same at nanosecond precision. */
  ghost predicate IsCandidateNs(z: Zone, w: int, t: int) {
    Frac(t) == Frac(w) && IsCandidate(z, Sec(w), Sec(t))
  }

  ghost function Candidates(z: Zone, w: int): Instant -> bool {
    (a: Instant) => IsCandidate(z, w, a.t)
  }

  ghost function CandidatesNs(z: Zone, w: int): Instant -> bool {
    (a: Instant) => IsCandidateNs(z, w, a.t)
  }

  ghost predicate Only(p: Instant -> bool, a: Instant) {
    p(a) && forall u :: p(u) ==> u == a
  }

  ghost predicate Several(p: Instant -> bool) {
    exists u, v :: p(u) && p(v) && u != v
  }

  ghost predicate Least(p: Instant -> bool, a: Instant) {
    p(a) && forall u :: p(u) ==> a.t <= u.t
  }

  ghost predicate Greatest(p: Instant -> bool, a: Instant) {
    p(a) && forall u :: p(u) ==> u.t <= a.t
  }

  /** The answer of the handler's resolver when `p` says what a candidate is. */
  ghost predicate Resolves(p: Instant -> bool, fold: Fold, r: Result<Instant, TimeError>) {
    match r
    case Ok(a) =>
      || (fold == NoFold && Only(p, a))
      || (fold == Earlier && Several(p) && Least(p, a))
      || (fold == Later && Several(p) && Greatest(p, a))
    case Err(e) =>
      || (e == Nonexistent && forall a :: !p(a))
      || (e == FoldNotAllowed && fold != NoFold && exists a :: Only(p, a))
      || (e == Ambiguous && fold != Earlier && fold != Later && Several(p))
  }

  /** The answer of a resolver that ignores the fold unless it is needed. */
  ghost predicate ResolvesLoosely(p: Instant -> bool, fold: Fold, r: Result<Instant, TimeError>) {
    match r
    case Ok(a) =>
      || Only(p, a)
      || (fold == Earlier && Several(p) && Least(p, a))
      || (fold == Later && Several(p) && Greatest(p, a))
    case Err(e) =>
      || (e == Nonexistent && forall a :: !p(a))
      || (e == Ambiguous && fold != Earlier && fold != Later && Several(p))
  }

  function Key(a: Instant): int { a.t }

  ghost predicate Lists(list: seq<Instant>, p: Instant -> bool) {
    Distinct(list) && forall a :: p(a) <==> a in list
  }

  /** Sorting a duplicate-free listing puts the least candidate first and the
      greatest last, whatever order the listing had. */
  lemma SortedEnds(list: seq<Instant>, p: Instant -> bool)
    requires Lists(list, p)
    ensures |Sort(list, Key)| == |list|
    ensures |list| == 0 ==> forall a :: !p(a)
    ensures |list| == 1 ==> Only(p, Sort(list, Key)[0])
    ensures |list| > 0 ==> Least(p, Sort(list, Key)[0])
    ensures |list| > 0 ==> Greatest(p, Sort(list, Key)[|list| - 1])
    ensures |list| > 1 ==> Several(p)
  {
    SortSorts(list, Key);
    var sorted := Sort(list, Key);
    if |list| > 0 {
      assert sorted[0] in list && sorted[|list| - 1] in list;
      forall u | p(u)
        ensures sorted[0].t <= u.t <= sorted[|list| - 1].t
        ensures |list| == 1 ==> u == sorted[0]
      {
        assert u in sorted;
        var k :| 0 <= k < |sorted| && sorted[k] == u;
        assert Key(sorted[0]) <= Key(sorted[k]) <= Key(sorted[|list| - 1]);
      }
    }
    if |list| > 1 {
      assert list[0] in list && list[1] in list && list[0] != list[1];
    }
  }

  // ---------- resolveLocalDateTime ----------

  /** The offsets found by the probes, without duplicates. */
  method ProbeOffsets(z: Zone, w: int) returns (offsets: set<Offset>)
    ensures forall o: Offset :: o in offsets <==> Probed(z, w, o)
  {
    offsets := {};
    for i := 0 to |PROBES|
      invariant forall o: Offset :: o in offsets <==>
        exists k :: 0 <= k < i && z.offset(w + PROBES[k]) == o
    {
      offsets := offsets + {z.offset(w + PROBES[i])};
    }
  }

  /** Every probed offset is tried; those that read back as `w` are kept. */
  method TryOffsets(z: Zone, w: int, order: seq<Offset>) returns (candidates: seq<Instant>)
    requires Distinct(order)
    ensures Distinct(candidates)
    ensures forall t :: At(t) in candidates <==>
      Local(z, t) == w && exists k :: 0 <= k < |order| && order[k] == w - t
  {
    candidates := [];
    for i := 0 to |order|
      invariant Distinct(candidates)
      invariant forall t :: At(t) in candidates <==>
        Local(z, t) == w && exists k :: 0 <= k < i && order[k] == w - t
    {
      var candidate := w - order[i];
      if candidate + z.offset(candidate) == w {
        assert At(candidate) !in candidates;
        candidates := candidates + [At(candidate)];
      }
    }
  }

  /** The handler's resolver. */
  method ResolveLocalDateTime(wall: Option<int>, zone: Option<Zone>, fold: Fold)
    returns (r: Result<Instant, TimeError>)
    ensures wall.None? ==> r == Err(BadText)
    ensures wall.Some? && zone.None? ==> r == Err(BadZone)
    ensures wall.Some? && zone.Some? ==>
      Resolves(Candidates(zone.value, wall.value), fold, r)
  {
    if wall.None? {
      return Err(BadText);
    }
    if zone.None? {
      return Err(BadZone);
    }
    var w, z := wall.value, zone.value;
    var offsets := ProbeOffsets(z, w);
    var order := Enumerate(offsets);
    var candidates := TryOffsets(z, w, order);
    ghost var p := Candidates(z, w);
    forall a: Instant
      ensures p(a) <==> a in candidates
    {
      ListedAreCandidates(z, w, offsets, order, candidates);
      assert a == At(a.t);
    }
    r := Choose(candidates, fold, p);
  }

  /** Sort the candidates, then let their number and the fold decide. */
  method Choose(list: seq<Instant>, fold: Fold, ghost p: Instant -> bool)
    returns (r: Result<Instant, TimeError>)
    requires Lists(list, p)
    ensures Resolves(p, fold, r)
  {
    SortedEnds(list, p);
    var candidates := Sort(list, Key);
    if |candidates| == 0 {
      return Err(Nonexistent);
    } else if |candidates| == 1 {
      if fold != NoFold {
        return Err(FoldNotAllowed);
      }
      return Ok(candidates[0]);
    }
    match fold
    case Earlier => return Ok(candidates[0]);
    case Later => return Ok(candidates[|candidates| - 1]);
    case _ => return Err(Ambiguous);
  }

  lemma ListedAreCandidates(
    z: Zone, w: int, offsets: set<Offset>, order: seq<Offset>, candidates: seq<Instant>)
    requires forall o: Offset :: o in offsets <==> Probed(z, w, o)
    requires forall o: Offset :: o in order <==> o in offsets
    requires forall t :: At(t) in candidates <==>
      Local(z, t) == w && exists k :: 0 <= k < |order| && order[k] == w - t
    ensures forall t :: IsCandidate(z, w, t) <==> At(t) in candidates
  {
    forall t
      ensures IsCandidate(z, w, t) <==> At(t) in candidates
    {
      if Local(z, t) == w {
        var o: Offset := z.offset(t);
        assert o == w - t;
        assert o in order <==> Probed(z, w, o);
        assert o in order <==> exists k :: 0 <= k < |order| && order[k] == o;
      }
    }
  }

  /** Resolution of a generated occurrence: the fold is used only when needed. */
  method ResolveRecurringLocal(wall: Option<int>, zone: Option<Zone>, fold: Fold)
    returns (r: Result<Instant, TimeError>)
    ensures wall.None? ==> r == Err(BadText)
    ensures wall.Some? && zone.None? ==> r == Err(BadZone)
    ensures wall.Some? && zone.Some? ==>
      ResolvesLoosely(Candidates(zone.value, wall.value), fold, r)
  {
    r := ResolveLocalDateTime(wall, zone, NoFold);
    if r != Err(Ambiguous) {
      return;
    }
    r := ResolveLocalDateTime(wall, zone, fold);
  }

  // ---------- resolveServiceWall ----------

  /** Probe `i` yields the instant `t`, and `t` reads back to the second. */
  predicate Hit(z: Zone, w: int, i: int, t: int)
    requires 0 <= i < |PROBES|
  {
    t == w - Ns(z.offset(Sec(w) + PROBES[i])) && Local(z, Sec(t)) == Sec(w)
  }

  lemma WholeSeconds(w: int, o: int)
    ensures Sec(w - Ns(o)) == Sec(w) - o
    ensures Frac(w - Ns(o)) == Frac(w)
  {
  }

  lemma HitsAreCandidates(z: Zone, w: int, t: int)
    ensures (exists i :: 0 <= i < |PROBES| && Hit(z, w, i, t)) <==> IsCandidateNs(z, w, t)
  {
    if i :| 0 <= i < |PROBES| && Hit(z, w, i, t) {
      WholeSeconds(w, z.offset(Sec(w) + PROBES[i]));
    }
    if IsCandidateNs(z, w, t) {
      var i :| 0 <= i < |PROBES| && z.offset(Sec(w) + PROBES[i]) == Sec(w) - Sec(t);
      assert t == w - Ns(Sec(w) - Sec(t));
      assert Hit(z, w, i, t);
    }
  }

  /** The instants the seven probes lead to, deduplicated by instant. */
  method ProbeInstants(z: Zone, w: int) returns (found: set<Instant>)
    ensures forall t :: At(t) in found <==> exists i :: 0 <= i < |PROBES| && Hit(z, w, i, t)
  {
    found := {};
    for i := 0 to |PROBES|
      invariant forall t :: At(t) in found <==> exists k :: 0 <= k < i && Hit(z, w, k, t)
    {
      var candidate := w - Ns(z.offset(Sec(w) + PROBES[i]));
      ghost var before := found;
      if Local(z, Sec(candidate)) == Sec(w) {
        found := found + {At(candidate)};
      }
      assert forall t :: At(t) in found <==> At(t) in before || Hit(z, w, i, t);
    }
  }

  /** The series updater's resolver. */
  method ResolveServiceWall(w: int, zone: Option<Zone>, fold: Fold)
    returns (r: Result<Instant, TimeError>)
    ensures zone.None? ==> r == Err(BadZone)
    ensures zone.Some? ==> r == ResolveWall(zone.value, w, fold)
  {
    if zone.None? {
      return Err(BadZone);
    }
    var z := zone.value;
    r := ResolveServiceInZone(w, z, fold);
    ResolveWallAnswers(z, w, fold);
    AnswerUnique(CandidatesNs(z, w), fold, r, ResolveWall(z, w, fold));
  }

  method ResolveServiceInZone(w: int, z: Zone, fold: Fold)
    returns (r: Result<Instant, TimeError>)
    ensures ResolvesLoosely(CandidatesNs(z, w), fold, r)
  {
    var found := ProbeInstants(z, w);
    var unique := Enumerate(found);
    ghost var p := CandidatesNs(z, w);
    forall a: Instant
      ensures p(a) <==> a in unique
    {
      HitsAreCandidates(z, w, a.t);
      assert a == At(a.t);
    }
    r := ChooseLoosely(unique, fold, p);
  }

  /** Sort what was found; the fold matters only if there is more than one. */
  method ChooseLoosely(list: seq<Instant>, fold: Fold, ghost p: Instant -> bool)
    returns (r: Result<Instant, TimeError>)
    requires Lists(list, p)
    ensures ResolvesLoosely(p, fold, r)
  {
    SortedEnds(list, p);
    var unique := Sort(list, Key);
    if |unique| == 0 {
      return Err(Nonexistent);
    }
    if |unique| == 1 {
      return Ok(unique[0]);
    }
    if fold == Earlier {
      return Ok(unique[0]);
    }
    if fold == Later {
      return Ok(unique[|unique| - 1]);
    }
    return Err(Ambiguous);
  }

  // ---------- The same answer as a function ----------

  /** The instants the first `n` probes lead to, possibly repeated. */
  function Found(z: Zone, w: int, n: nat): seq<int>
    requires n <= |PROBES|
  {
    if n == 0 then []
    else
      var candidate := w - Ns(z.offset(Sec(w) + PROBES[n - 1]));
      Found(z, w, n - 1) + if Hit(z, w, n - 1, candidate) then [candidate] else []
  }

  function Min(s: seq<int>): (m: int)
    requires s != []
    ensures exists k :: 0 <= k < |s| && s[k] == m
    ensures forall k :: 0 <= k < |s| ==> m <= s[k]
  {
    if |s| == 1 then s[0]
    else
      var rest := Min(s[1..]);
      assert forall k :: 0 < k < |s| ==> s[k] == s[1..][k - 1];
      if s[0] <= rest then s[0] else rest
  }

  function Max(s: seq<int>): (m: int)
    requires s != []
    ensures exists k :: 0 <= k < |s| && s[k] == m
    ensures forall k :: 0 <= k < |s| ==> s[k] <= m
  {
    if |s| == 1 then s[0]
    else
      var rest := Max(s[1..]);
      assert forall k :: 0 < k < |s| ==> s[k] == s[1..][k - 1];
      if s[0] >= rest then s[0] else rest
  }

  /** The updater's answer, computed without sets or sorting. */
  function ResolveWall(z: Zone, w: int, fold: Fold): Result<Instant, TimeError> {
    Pick(Found(z, w, |PROBES|), fold)
  }

  function Pick(found: seq<int>, fold: Fold): Result<Instant, TimeError> {
    if found == [] then Err(Nonexistent)
    else if Min(found) == Max(found) || fold == Earlier then Ok(At(Min(found)))
    else if fold == Later then Ok(At(Max(found)))
    else Err(Ambiguous)
  }

  lemma {:induction false} FoundAreHits(z: Zone, w: int, n: nat, t: int)
    requires n <= |PROBES|
    ensures (exists k :: 0 <= k < |Found(z, w, n)| && Found(z, w, n)[k] == t) <==>
      (exists i :: 0 <= i < n && Hit(z, w, i, t))
  {
    if n > 0 {
      FoundAreHits(z, w, n - 1, t);
      var f, g := Found(z, w, n - 1), Found(z, w, n);
      assert forall k :: 0 <= k < |f| ==> g[k] == f[k];
      if i :| 0 <= i < n && Hit(z, w, i, t) {
        assert i == n - 1 ==> g[|g| - 1] == t;
      }
    }
  }

  lemma FoundAreCandidates(z: Zone, w: int, n: nat, a: Instant)
    requires n == |PROBES|
    ensures CandidatesNs(z, w)(a) <==>
      exists k :: 0 <= k < |Found(z, w, n)| && Found(z, w, n)[k] == a.t
  {
    FoundAreHits(z, w, n, a.t);
    HitsAreCandidates(z, w, a.t);
  }

  lemma EndsAnswer(p: Instant -> bool, found: seq<int>, fold: Fold)
    requires forall a: Instant :: p(a) <==> exists k :: 0 <= k < |found| && found[k] == a.t
    ensures ResolvesLoosely(p, fold, Pick(found, fold))
  {
    if found != [] {
      assert p(At(Min(found))) && p(At(Max(found)));
    }
  }

  /** It is the answer every correct resolver gives. */
  lemma ResolveWallAnswers(z: Zone, w: int, fold: Fold)
    ensures ResolvesLoosely(CandidatesNs(z, w), fold, ResolveWall(z, w, fold))
  {
    var n: nat := |PROBES|;
    forall a: Instant
      ensures CandidatesNs(z, w)(a) <==>
        exists k :: 0 <= k < |Found(z, w, n)| && Found(z, w, n)[k] == a.t
    {
      FoundAreCandidates(z, w, n, a);
    }
    EndsAnswer(CandidatesNs(z, w), Found(z, w, n), fold);
  }

  lemma AnswerUnique(
    c: Instant -> bool, fold: Fold, a: Result<Instant, TimeError>, b: Result<Instant, TimeError>)
    requires ResolvesLoosely(c, fold, a) && ResolvesLoosely(c, fold, b)
    ensures a == b
  {
  }

  // ---------- The two resolvers agree ----------

  lemma Split(t: int, w: int)
    requires Frac(t) == Frac(w)
    ensures t == Ns(Sec(t)) + Frac(w)
    ensures Sec(Ns(Sec(t)) + Frac(w)) == Sec(t)
  {
  }

  lemma Join(t: int, w: int)
    ensures Sec(Ns(t) + Frac(w)) == t
    ensures Frac(Ns(t) + Frac(w)) == Frac(w)
  {
  }

  /** A candidate in seconds is one in nanoseconds with the fraction restored. */
  lemma Up(z: Zone, w: int, a: Instant) returns (b: Instant)
    requires Candidates(z, Sec(w))(a)
    ensures CandidatesNs(z, w)(b) && b.t == Ns(a.t) + Frac(w)
  {
    b := At(Ns(a.t) + Frac(w));
    Join(a.t, w);
  }

  /** And conversely. */
  lemma Down(z: Zone, w: int, b: Instant) returns (a: Instant)
    requires CandidatesNs(z, w)(b)
    ensures Candidates(z, Sec(w))(a) && b.t == Ns(a.t) + Frac(w)
  {
    a := At(Sec(b.t));
    Split(b.t, w);
  }

  lemma SeveralCorrespond(z: Zone, w: int)
    ensures Several(Candidates(z, Sec(w))) <==> Several(CandidatesNs(z, w))
  {
    var p, q := Candidates(z, Sec(w)), CandidatesNs(z, w);
    if Several(p) {
      var u, v :| p(u) && p(v) && u != v;
      var u' := Up(z, w, u);
      var v' := Up(z, w, v);
      assert q(u') && q(v') && u' != v';
    }
    if Several(q) {
      var u, v :| q(u) && q(v) && u != v;
      var u' := Down(z, w, u);
      var v' := Down(z, w, v);
      assert p(u') && p(v') && u' != v';
    }
  }

  lemma NoneCorrespond(z: Zone, w: int)
    ensures (forall a :: !Candidates(z, Sec(w))(a)) <==> (forall b :: !CandidatesNs(z, w)(b))
  {
    if a :| Candidates(z, Sec(w))(a) {
      var b := Up(z, w, a);
    }
    if b :| CandidatesNs(z, w)(b) {
      var a := Down(z, w, b);
    }
  }

  lemma EndsCorrespond(z: Zone, w: int, a: Instant, b: Instant)
    requires Candidates(z, Sec(w))(a) && CandidatesNs(z, w)(b)
    ensures Only(Candidates(z, Sec(w)), a) ==> b.t == Ns(a.t) + Frac(w)
    ensures Least(Candidates(z, Sec(w)), a) && Least(CandidatesNs(z, w), b) ==>
      b.t == Ns(a.t) + Frac(w)
    ensures Greatest(Candidates(z, Sec(w)), a) && Greatest(CandidatesNs(z, w), b) ==>
      b.t == Ns(a.t) + Frac(w)
  {
    var b' := Up(z, w, a);
    var a' := Down(z, w, b);
  }

  /** For every wall reading, zone and fold the two resolvers succeed together,
      fail together with the same error, and name the same instant. */
  lemma ResolversAgree(
    z: Zone, w: int, fold: Fold, a: Result<Instant, TimeError>, b: Result<Instant, TimeError>)
    requires ResolvesLoosely(Candidates(z, Sec(w)), fold, a)
    requires ResolvesLoosely(CandidatesNs(z, w), fold, b)
    ensures a.Ok? <==> b.Ok?
    ensures a.Ok? ==> b.value.t == Ns(a.value.t) + Frac(w)
    ensures a.Err? ==> a == b
  {
    SeveralCorrespond(z, w);
    NoneCorrespond(z, w);
    if a.Ok? && b.Ok? {
      EndsCorrespond(z, w, a.value, b.value);
    }
  }

  /** An instant chosen by the updater's resolver reads exactly as asked. */
  lemma ReadsBack(z: Zone, w: int, t: int)
    requires IsCandidateNs(z, w, t)
    ensures LocalNs(z, t) == w
  {
    assert t + Ns(Sec(w) - Sec(t)) == w;
  }

  // ---------- Seven probes find every preimage ----------

  /** On [lo, hi] the offset changes at most once, at `change`. */
  ghost predicate StepAt(z: Zone, lo: int, hi: int, change: int) {
    && (forall t :: lo <= t < change && t <= hi ==> z.offset(t) == z.offset(lo))
    && (forall t :: change <= t <= hi && lo <= t ==> z.offset(t) == z.offset(hi))
  }

  ghost predicate AtMostOneStep(z: Zone, lo: int, hi: int) {
    exists change :: StepAt(z, lo, hi, change)
  }

  /** Offsets change at most once between neighbouring probes. */
  ghost predicate Regular(z: Zone, w: int) {
    forall i :: 0 <= i < |PROBES| - 1 ==> AtMostOneStep(z, w + PROBES[i], w + PROBES[i + 1])
  }

  /** Offsets change at most once within 48 hours of the reading. */
  ghost predicate SingleTransition(z: Zone, w: int) {
    AtMostOneStep(z, w - 48 * HOUR, w + 48 * HOUR)
  }

  lemma GapCovered(z: Zone, w: int, t: int, i: int)
    requires Regular(z, w)
    requires 0 <= i < |PROBES| - 1 && w + PROBES[i] <= t <= w + PROBES[i + 1]
    ensures Probed(z, w, z.offset(t))
  {
    var lo, hi := w + PROBES[i], w + PROBES[i + 1];
    var change :| StepAt(z, lo, hi, change);
    if t < change {
      assert z.offset(t) == z.offset(lo);
    } else {
      assert z.offset(t) == z.offset(hi);
    }
  }

  /** Exactness: the candidates are precisely the instants that read `w`. */
  lemma CandidatesAreAllPreimages(z: Zone, w: int)
    requires Regular(z, w)
    ensures forall t :: IsCandidate(z, w, t) <==> Local(z, t) == w
  {
    forall t | Local(z, t) == w
      ensures IsCandidate(z, w, t)
    {
      var o: Offset := z.offset(t);
      var i :=
        if t <= w - 24 * HOUR then 0 else if t <= w - 6 * HOUR then 1 else if t <= w then 2
        else if t <= w + 6 * HOUR then 3 else if t <= w + 24 * HOUR then 4 else 5;
      GapCovered(z, w, t, i);
    }
  }

  /** What the handler's resolver promises, stated over all instants. */
  lemma ResolutionIsExact(z: Zone, w: int, fold: Fold, r: Result<Instant, TimeError>)
    requires Regular(z, w)
    requires Resolves(Candidates(z, w), fold, r)
    ensures r == Err(Nonexistent) <==> forall t :: Local(z, t) != w
    ensures r.Ok? ==> Local(z, r.value.t) == w
    ensures r.Ok? && fold == NoFold ==> forall t :: Local(z, t) == w ==> t == r.value.t
    ensures r.Ok? && fold == Earlier ==> forall t :: Local(z, t) == w ==> r.value.t <= t
    ensures r.Ok? && fold == Later ==> forall t :: Local(z, t) == w ==> t <= r.value.t
    ensures r == Err(Ambiguous) ==>
      exists t, u :: t != u && Local(z, t) == w && Local(z, u) == w
  {
    CandidatesAreAllPreimages(z, w);
    var p := Candidates(z, w);
    assert forall t :: p(At(t)) <==> Local(z, t) == w;
    if r == Err(Ambiguous) {
      var u, v :| p(u) && p(v) && u != v;
      assert Local(z, u.t) == w && Local(z, v.t) == w;
    }
  }

  /** One transition nearby is a special case, and leaves at most two instants. */
  lemma SingleTransitionIsRegular(z: Zone, w: int)
    requires SingleTransition(z, w)
    ensures Regular(z, w)
    ensures forall a, b, c ::
      Local(z, a) == w && Local(z, b) == w && Local(z, c) == w ==> a == b || b == c || a == c
  {
    var lo, hi := w - 48 * HOUR, w + 48 * HOUR;
    var change :| StepAt(z, lo, hi, change);
    forall i | 0 <= i < |PROBES| - 1
      ensures AtMostOneStep(z, w + PROBES[i], w + PROBES[i + 1])
    {
      assert StepAt(z, w + PROBES[i], w + PROBES[i + 1], change);
    }
    forall t | Local(z, t) == w
      ensures t == w - z.offset(lo) || t == w - z.offset(hi)
    {
      var o: Offset := z.offset(t);
      assert lo <= t <= hi;
    }
  }

  /** UTC, but for one second, `a` seconds after `w`, whose clock shows `w`. */
  function Spike(w: int, a: int): Zone
    requires -48 * HOUR <= a <= 48 * HOUR
  {
    var f: int -> Offset := t => if t == w + a then -a else 0;
    Zone(f, d => d * DAY)
  }

  /** Two changes inside one gap hide an instant from all seven probes: for every
      reading, in every gap, at every place strictly inside it. */
  lemma TwoStepsInOneGapHideAnInstant(w: int, i: nat, a: int)
    requires i < |PROBES| - 1 && PROBES[i] < a < PROBES[i + 1]
    ensures -48 * HOUR <= a <= 48 * HOUR
    ensures Local(Spike(w, a), w + a) == w && !IsCandidate(Spike(w, a), w, w + a)
  {
    assert forall j | 0 <= j < |PROBES| :: PROBES[j] != a;
  }
}
