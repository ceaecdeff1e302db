/**
 Keyset pagination over the schedules of a time range, while the table changes
 between pages.
 */
module Paging {
  import opened Prelude
  import opened LocalTime
  import opened Patching
  import Ledger

  type Table = map<nat, Ledger.Row>

  /** Position of a row in the listing order. */
  datatype Key = Key(startAt: int, id: nat)

  datatype Query = Query(
    user: nat, from: int, to: int, fromDate: Option<int>, toDate: Option<int>,
    status: Option<string>, search: string)

  predicate Less(a: Key, b: Key) {
    a.startAt < b.startAt || (a.startAt == b.startAt && a.id < b.id)
  }

  /** LOCATE(search, text) > 0. */
  predicate Within(search: string, text: string) {
    exists i | 0 <= i <= |text| :: search <= text[i..]
  }

  /** The range condition: days for all-day rows, instants for timed ones. */
  predicate InRange(q: Query, f: Fields) {
    if f.allDay then
      && f.startDate.Some? && f.endDate.Some? && q.fromDate.Some? && q.toDate.Some?
      && f.startDate.value < q.toDate.value && q.fromDate.value < f.endDate.value
    else if f.endAt.None? then q.from <= f.startAt < q.to
    else f.startAt < q.to && q.from < f.endAt.value
  }

  predicate Matches(q: Query, row: Ledger.Row) {
    && row.owner == q.user && InRange(q, row.fields)
    && (q.status.None? || row.fields.status == q.status.value)
    && (q.search == "" || Within(q.search, row.fields.title) ||
        Within(q.search, Or(row.fields.location, "")))
  }

  /** The row of key `k` matches and lies beyond the cursor. */
  predicate Shows(t: Table, q: Query, cursor: Option<Key>, k: Key) {
    && k.id in t && t[k.id].fields.startAt == k.startAt && Matches(q, t[k.id])
    && (cursor.Some? ==> Less(cursor.value, k))
  }

  ghost predicate Sorted(page: seq<Key>) {
    forall i, j | 0 <= i < j < |page| ::
      page[i].startAt < page[j].startAt ||
      (page[i].startAt == page[j].startAt && page[i].id < page[j].id)
  }

  /** What one page promises: matching rows in order, none passed over; if there is
      more, it lies beyond the last row shown. */
  ghost predicate IsPage(
    t: Table, q: Query, cursor: Option<Key>, limit: nat, page: seq<Key>, more: bool)
  {
    && Sorted(page) && |page| <= limit
    && (forall i | 0 <= i < |page| :: Shows(t, q, cursor, page[i]))
    && (forall k | Shows(t, q, cursor, k) ::
          k in page || (more && page != [] && Less(page[|page| - 1], k)))
    && (more ==> |page| == limit && exists k :: Shows(t, q, cursor, k) && k !in page)
  }

  // ---------- What the filter means ----------

  ghost predicate Inside(lo: int, t: int, hi: int) { lo <= t < hi }

  /** The two intervals have a point in common. */
  ghost predicate Meet(a: int, b: int, c: int, d: int) {
    exists t :: Inside(a, t, b) && Inside(c, t, d)
  }

  lemma MeetIff(a: int, b: int, c: int, d: int)
    requires a < b && c < d
    ensures Meet(a, b, c, d) <==> a < d && c < b
  {
    var t := if a <= c then c else a;
    assert a < d && c < b ==> Inside(a, t, b) && Inside(c, t, d);
  }

  /** The schedule takes place within the range: an all-day one on one of its days, a
      timed one at one of its instants, one without an end by its start. */
  ghost predicate TakesPlace(q: Query, f: Fields) {
    if f.allDay then
      && f.startDate.Some? && f.endDate.Some? && q.fromDate.Some? && q.toDate.Some?
      && Meet(q.fromDate.value, q.toDate.value, f.startDate.value, f.endDate.value)
    else if f.endAt.None? then Inside(q.from, f.startAt, q.to)
    else Meet(q.from, q.to, f.startAt, f.endAt.value)
  }

  ghost predicate OccursAt(text: string, search: string, i: nat) {
    i + |search| <= |text| && text[i..i + |search|] == search
  }

  ghost predicate HoldsText(text: string, search: string) {
    exists i: nat :: OccursAt(text, search, i)
  }

  lemma PrefixAt(text: string, search: string, i: nat)
    requires i <= |text|
    ensures search <= text[i..] <==> OccursAt(text, search, i)
  {
    if i + |search| <= |text| {
      assert text[i..][..|search|] == text[i..i + |search|];
    }
  }

  lemma WithinMeans(search: string, text: string)
    ensures Within(search, text) <==> HoldsText(text, search)
  {
    if i :| 0 <= i <= |text| && search <= text[i..] {
      PrefixAt(text, search, i);
    }
    if i: nat :| OccursAt(text, search, i) {
      PrefixAt(text, search, i);
      assert search <= text[i..];
    }
  }

  /** Proper intervals: the range, its days, and the schedule's own. */
  ghost predicate Proper(q: Query, f: Fields) {
    && q.from < q.to && (f.endAt.Some? ==> f.startAt < f.endAt.value)
    && (q.fromDate.Some? && q.toDate.Some? ==> q.fromDate.value < q.toDate.value)
    && (f.startDate.Some? && f.endDate.Some? ==> f.startDate.value < f.endDate.value)
  }

  /** A row matches exactly if it is the user's, takes place within the range, has the
      status asked for, and holds the text searched for in its title or location. */
  lemma MatchesMeans(q: Query, row: Ledger.Row)
    requires Proper(q, row.fields)
    ensures Matches(q, row) <==>
      && row.owner == q.user && TakesPlace(q, row.fields)
      && (q.status.Some? ==> row.fields.status == q.status.value)
      && (q.search == "" || HoldsText(row.fields.title, q.search) ||
          (row.fields.location.Some? && HoldsText(row.fields.location.value, q.search)))
  {
    var f := row.fields;
    WithinMeans(q.search, f.title);
    WithinMeans(q.search, Or(f.location, ""));
    if f.allDay {
      if f.startDate.Some? && f.endDate.Some? && q.fromDate.Some? && q.toDate.Some? {
        MeetIff(q.fromDate.value, q.toDate.value, f.startDate.value, f.endDate.value);
      }
    } else if f.endAt.Some? {
      MeetIff(q.from, q.to, f.startAt, f.endAt.value);
    }
  }

  // ---------- The query ----------

  /** The first row beyond the cursor. */
  method FirstAfter(t: Table, q: Query, cursor: Option<Key>) returns (first: Option<Key>)
    ensures first.Some? ==> Shows(t, q, cursor, first.value)
    ensures forall k | Shows(t, q, cursor, k) ::
      first.Some? && (k == first.value || Less(first.value, k))
  {
    var ids: seq<nat> := Enumerate<nat>(t.Keys);
    first := None;
    var i := 0;
    while i < |ids|
      invariant 0 <= i <= |ids|
      invariant first.Some? ==> Shows(t, q, cursor, first.value)
      invariant forall k | Shows(t, q, cursor, k) && k.id in ids[..i] ::
        first.Some? && (k == first.value || Less(first.value, k))
    {
      assert ids[..i + 1] == ids[..i] + [ids[i]];
      var k := Key(t[ids[i]].fields.startAt, ids[i]);
      if Shows(t, q, cursor, k) && (first.None? || Less(k, first.value)) {
        first := Some(k);
      }
      i := i + 1;
    }
    assert ids[..i] == ids;
  }

  /** SELECT ... ORDER BY start_at, id LIMIT n. */
  method QueryPage(t: Table, q: Query, cursor: Option<Key>, n: nat) returns (rows: seq<Key>)
    ensures Sorted(rows) && |rows| <= n
    ensures forall i | 0 <= i < |rows| :: Shows(t, q, cursor, rows[i])
    ensures forall k | Shows(t, q, cursor, k) ::
      k in rows || (|rows| == n && (rows != [] ==> Less(rows[|rows| - 1], k)))
  {
    rows := [];
    var position := cursor;
    while |rows| < n
      invariant |rows| <= n && Sorted(rows)
      invariant forall i | 0 <= i < |rows| :: Shows(t, q, cursor, rows[i])
      invariant position == if rows == [] then cursor else Some(rows[|rows| - 1])
      invariant forall k | Shows(t, q, cursor, k) :: k in rows || Shows(t, q, position, k)
      decreases n - |rows|
    {
      var next := FirstAfter(t, q, position);
      if next.None? {
        return;
      }
      forall i | 0 <= i < |rows|
        ensures Less(rows[i], next.value)
      {
        assert Less(rows[i], rows[|rows| - 1]) || i == |rows| - 1;
      }
      assert Shows(t, q, cursor, next.value);
      rows := rows + [next.value];
      position := next;
    }
  }

  /** All but the last of the rows found are a page with more to come. */
  lemma PageOfMore(t: Table, q: Query, cursor: Option<Key>, rows: seq<Key>, limit: nat)
    requires limit >= 1 && |rows| == limit + 1 && Sorted(rows)
    requires forall i | 0 <= i < |rows| :: Shows(t, q, cursor, rows[i])
    requires forall k | Shows(t, q, cursor, k) :: k in rows || Less(rows[limit], k)
    ensures IsPage(t, q, cursor, limit, rows[..limit], true)
  {
    var page, last := rows[..limit], rows[limit];
    assert rows == page + [last];
    LastIsApart(page, last);
    assert Shows(t, q, cursor, last);
    forall k | Shows(t, q, cursor, k)
      ensures k in page || Less(page[limit - 1], k)
    {
      assert k in page || k == last || Less(last, k);
    }
  }

  lemma LastIsApart(page: seq<Key>, last: Key)
    requires page != [] && Sorted(page + [last])
    ensures Sorted(page) && last !in page && Less(page[|page| - 1], last)
  {
    var rows := page + [last];
    assert forall i | 0 <= i < |page| :: rows[i] == page[i];
    assert rows[|page|] == last;
    assert forall i | 0 <= i < |page| :: Less(rows[i], rows[|page|]);
  }

  /** ListSchedulesPage: ask for one row more than the page holds. */
  method ListSchedulesPage(t: Table, q: Query, cursor: Option<Key>, limit: nat)
    returns (page: seq<Key>, more: bool)
    requires limit >= 1
    ensures IsPage(t, q, cursor, limit, page, more)
  {
    var rows := QueryPage(t, q, cursor, limit + 1);
    more := |rows| > limit;
    page := rows;
    if more {
      PageOfMore(t, q, cursor, rows, limit);
      page := rows[..limit];
    }
  }

  // ---------- A walk over changing tables ----------

  /** One request: the table as it was then, the limit asked for, what came back. */
  datatype Visit = Visit(table: Table, limit: nat, page: seq<Key>, more: bool)

  /** The cursor for the next request: the last row of the last page. */
  function CursorAfter(visits: seq<Visit>): Option<Key> {
    if visits == [] || visits[|visits| - 1].page == [] then None
    else
      var page := visits[|visits| - 1].page;
      Some(page[|page| - 1])
  }

  ghost predicate Visits(q: Query, cursor: Option<Key>, v: Visit) {
    v.limit >= 1 && IsPage(v.table, q, cursor, v.limit, v.page, v.more)
  }

  /** Requests one after the other, each with the cursor of the one before. */
  ghost predicate Walk(q: Query, visits: seq<Visit>) {
    visits == [] ||
    var before, last := visits[..|visits| - 1], visits[|visits| - 1];
    && Walk(q, before)
    && (before != [] ==> before[|before| - 1].more)
    && Visits(q, CursorAfter(before), last)
  }

  /** The walk reached a page after which there was no more. */
  ghost predicate Completed(q: Query, visits: seq<Visit>) {
    Walk(q, visits) && visits != [] && !visits[|visits| - 1].more
  }

  /** Everything shown so far. */
  function Shown(visits: seq<Visit>): seq<Key> {
    if visits == [] then [] else Shown(visits[..|visits| - 1]) + visits[|visits| - 1].page
  }

  lemma SortedJoin(a: seq<Key>, b: seq<Key>)
    requires Sorted(a) && Sorted(b)
    requires a != [] ==> forall i | 0 <= i < |b| :: Less(a[|a| - 1], b[i])
    ensures Sorted(a + b)
  {
    forall i, j | 0 <= i < |a| && 0 <= j < |b|
      ensures Less(a[i], b[j])
    {
      assert i == |a| - 1 || Less(a[i], a[|a| - 1]);
    }
  }

  /** The next page starts beyond everything shown. */
  lemma CursorIsTheEnd(visits: seq<Visit>)
    requires visits != [] && visits[|visits| - 1].page != []
    ensures Shown(visits) != []
    ensures CursorAfter(visits) == Some(Shown(visits)[|Shown(visits)| - 1])
  {
  }

  /** However the table changed, the rows shown ascend strictly, over all pages. */
  lemma {:induction false} WalkAscends(q: Query, visits: seq<Visit>)
    requires Walk(q, visits)
    ensures Sorted(Shown(visits))
  {
    if visits != [] {
      var before, last := visits[..|visits| - 1], visits[|visits| - 1];
      WalkAscends(q, before);
      if before != [] {
        MoreMeansSome(q, before);
        CursorIsTheEnd(before);
        var cursor := CursorAfter(before);
        forall i | 0 <= i < |last.page|
          ensures Less(cursor.value, last.page[i])
        {
          assert Shows(last.table, q, cursor, last.page[i]);
        }
      }
      SortedJoin(Shown(before), last.page);
    }
  }

  lemma MoreMeansSome(q: Query, visits: seq<Visit>)
    requires Walk(q, visits) && visits != [] && visits[|visits| - 1].more
    ensures visits[|visits| - 1].page != []
  {
    assert Visits(q, CursorAfter(visits[..|visits| - 1]), visits[|visits| - 1]);
  }

  /** The row has been shown, or the next page starts before it. */
  ghost predicate ShownOrAhead(visits: seq<Visit>, k: Key) {
    || k in Shown(visits)
    || visits == []
    || (visits[|visits| - 1].more && CursorAfter(visits).Some? &&
        Less(CursorAfter(visits).value, k))
  }

  lemma {:induction false} NonePassedOver(q: Query, visits: seq<Visit>, k: Key)
    requires Walk(q, visits)
    requires forall i | 0 <= i < |visits| :: Shows(visits[i].table, q, None, k)
    ensures ShownOrAhead(visits, k)
  {
    if visits != [] {
      var before, last := visits[..|visits| - 1], visits[|visits| - 1];
      assert forall i | 0 <= i < |before| :: before[i] == visits[i];
      NonePassedOver(q, before, k);
      if k !in Shown(before) {
        assert Shows(last.table, q, CursorAfter(before), k);
      }
    }
  }

  /** The key occurs exactly once in the list. */
  ghost predicate Once(list: seq<Key>, k: Key) {
    exists i :: 0 <= i < |list| && list[i] == k && forall j | 0 <= j < |list| && j != i :: list[j] != k
  }

  lemma SortedOnce(list: seq<Key>, k: Key)
    requires Sorted(list) && k in list
    ensures Once(list, k)
  {
    var i :| 0 <= i < |list| && list[i] == k;
    forall j | 0 <= j < |list| && j != i
      ensures list[j] != k
    {
      assert if j < i then Less(list[j], list[i]) else Less(list[i], list[j]);
    }
  }

  /** Paging under change: a row that matches and keeps its place from the first
      page to the last is shown exactly once. */
  lemma UnchangedRowShownOnce(q: Query, visits: seq<Visit>, k: Key)
    requires Completed(q, visits)
    requires forall i | 0 <= i < |visits| :: Shows(visits[i].table, q, None, k)
    ensures Once(Shown(visits), k)
  {
    WalkAscends(q, visits);
    NonePassedOver(q, visits, k);
    SortedOnce(Shown(visits), k);
  }

  lemma {:induction false} ShownMatched(q: Query, visits: seq<Visit>, t: Table, k: Key)
    requires Walk(q, visits) && k in Shown(visits)
    requires forall i | 0 <= i < |visits| :: visits[i].table == t
    ensures Shows(t, q, None, k)
  {
    var before, last := visits[..|visits| - 1], visits[|visits| - 1];
    if k in last.page {
      assert Shows(last.table, q, CursorAfter(before), k);
    } else {
      ShownMatched(q, before, t, k);
    }
  }

  /** On a table that does not change, the pages together are the whole filtered
      list in order: what one page without limit would have held. */
  lemma FixedTableGivesAll(t: Table, q: Query, visits: seq<Visit>, limit: nat, whole: seq<Key>)
    requires Completed(q, visits)
    requires forall i | 0 <= i < |visits| :: visits[i].table == t
    requires IsPage(t, q, None, limit, whole, false)
    ensures Shown(visits) == whole
  {
    WalkAscends(q, visits);
    forall k: Key
      ensures k in Shown(visits) <==> k in whole
    {
      if k in Shown(visits) {
        ShownMatched(q, visits, t, k);
      } else if k in whole {
        assert Shows(t, q, None, k);
        UnchangedRowShownOnce(q, visits, k);
      }
    }
    SortedUnique(Shown(visits), whole);
  }

  lemma {:induction false} SortedUnique(a: seq<Key>, b: seq<Key>)
    requires Sorted(a) && Sorted(b) && forall k: Key :: k in a <==> k in b
    ensures a == b
  {
    assert |a| > 0 ==> a[0] in b;
    assert |b| > 0 ==> b[0] in a;
    if a != [] {
      var a', b' := a[1..], b[1..];
      forall k: Key
        ensures k in a' <==> k in b'
      {
        assert k in a' <==> k in a && k != a[0];
        assert k in b' <==> k in b && k != b[0];
      }
      SortedUnique(a', b');
      assert a == [a[0]] + a' && b == [b[0]] + b';
    }
  }

  // ---------- Cursor tokens ----------

  /** Go's zero time, 0001-01-01 00:00:00 UTC, which is day 366. */
  const ZERO_TIME := Ns(366 * DAY)

  /** A token as received: the serialised triple, or anything else. */
  datatype Token = Garbage | Token(startAt: int, id: Option<nat>, filter: Query)

  function Encode(k: Key, filter: Query): Token { Token(k.startAt, Some(k.id), filter) }

  function Decode(token: Token, filter: Query): Option<Key> {
    if token.Garbage? || token.filter != filter || token.startAt == ZERO_TIME || token.id.None?
    then None else Some(Key(token.startAt, token.id.value))
  }

  /** Decoding inverts encoding under the same filter, and under no other. */
  lemma CursorRoundTrip(k: Key, filter: Query, other: Query)
    ensures Decode(Encode(k, filter), other) ==
      if other == filter && k.startAt != ZERO_TIME then Some(k) else None
  {
  }

  // ---------- The handler's guard ----------

  predicate Accepts(q: Query, token: Token) {
    Decode(token, q).Some? && Decode(token, q).value.startAt < q.to
  }

  datatype Listing = Listing(page: seq<Key>, more: bool, next: Option<Token>)

  /** The list handler: it decodes the cursor and refuses one at or after the end
      of the range. */
  method ListPage(t: Table, q: Query, cursor: Option<Token>, limit: nat) returns (r: Option<Listing>)
    requires limit >= 1
    ensures r.None? <==> cursor.Some? && !Accepts(q, cursor.value)
    ensures r.Some? ==>
      var key := if cursor.None? then None else Decode(cursor.value, q);
      && IsPage(t, q, key, limit, r.value.page, r.value.more)
      && (r.value.next.Some? <==> r.value.more)
      && (r.value.more ==> r.value.page != [])
      && (r.value.more ==> r.value.next.value == Encode(r.value.page[|r.value.page| - 1], q))
  {
    var key: Option<Key> := None;
    if cursor.Some? {
      key := Decode(cursor.value, q);
      if key.None? || !(key.value.startAt < q.to) {
        return None;
      }
    }
    var page, more := ListSchedulesPage(t, q, key, limit);
    var next := if more && page != [] then Some(Encode(page[|page| - 1], q)) else None;
    return Some(Listing(page, more, next));
  }

  /** The handler takes back the cursor it gave out exactly if the page's last row
      is timed or starts before the end of the range (and not at Go's zero time). */
  lemma OwnCursorAcceptedIff(
    t: Table, q: Query, cursor: Option<Key>, limit: nat, page: seq<Key>, more: bool)
    requires IsPage(t, q, cursor, limit, page, more) && page != []
    ensures var last := page[|page| - 1];
      && last.id in t
      && (Accepts(q, Encode(last, q)) <==>
            last.startAt != ZERO_TIME && (!t[last.id].fields.allDay || last.startAt < q.to))
  {
    assert Shows(t, q, cursor, page[|page| - 1]);
  }

  const WEST_HOURS := 12

  /** The zone twelve hours west of UTC, the only one known besides UTC. */
  function WestOfUtc(): Zones {
    var west: Zone := Zone(t => -WEST_HOURS * HOUR, d => d * DAY + WEST_HOURS * HOUR);
    name => if name == "West" then Some(west) else if name == "UTC" then Some(Utc()) else None
  }

  /** An all-day schedule of day 0 there. */
  function AllDayRow(): Ledger.Row {
    var start := Ns(WEST_HOURS * HOUR);
    Ledger.Row(
      0,
      Fields(
        "x", None, None, start, Some(start + Ns(DAY)), true, "West", Some(0), Some(1), "confirmed"),
      "manual", 1, [], None)
  }

  /** Two such schedules, in normal form, for a reader in UTC whose range ends six
      hours into that day: the first page's own cursor is refused. */
  lemma CursorRefusedAtItsOwnPage()
    ensures Normal(WestOfUtc(), AllDayRow().fields)
    ensures var q := Query(0, 0, Ns(6 * HOUR), Some(0), Some(1), None, "");
      var t: Table := map[1 := AllDayRow(), 2 := AllDayRow()];
      var page := [Key(AllDayRow().fields.startAt, 1)];
      IsPage(t, q, None, 1, page, true) && !Accepts(q, Encode(page[0], q))
  {
    var q := Query(0, 0, Ns(6 * HOUR), Some(0), Some(1), None, "");
    var t: Table := map[1 := AllDayRow(), 2 := AllDayRow()];
    var start := AllDayRow().fields.startAt;
    assert Shows(t, q, None, Key(start, 2)) && Key(start, 2) !in [Key(start, 1)];
    assert Shows(t, q, None, Key(start, 1));
  }
}
