/** Wrapper datatypes and ordered-sequence facts shared by the whole model. */
module Prelude {

  datatype Option<+T> = None | Some(value: T)

  datatype Result<+T, +E> = Ok(value: T) | Err(error: E)

  ghost predicate Distinct<T>(s: seq<T>) {
    forall i, j | 0 <= i < j < |s| :: s[i] != s[j]
  }

  /** Every element has a smaller key than each later one. */
  ghost predicate Ascending<T>(s: seq<T>, key: T -> int) {
    forall i, j | 0 <= i < j < |s| :: key(s[i]) < key(s[j])
  }

  /** Iteration over a Go map: some duplicate-free listing, in no fixed order. */
  method Enumerate<T(==,!new)>(c: set<T>) returns (list: seq<T>)
    ensures Distinct(list)
    ensures forall x :: x in list <==> x in c
  {
    list := [];
    var pending := c;
    while pending != {}
      invariant pending <= c && Distinct(list)
      invariant forall x :: x in list <==> x in c && x !in pending
      decreases pending
    {
      var x :| x in pending;
      list := list + [x];
      pending := pending - {x};
    }
  }

  // ---------- sort.Slice on elements with distinct keys ----------

  function Insert<T>(s: seq<T>, x: T, key: T -> int): seq<T> {
    if s == [] || key(x) <= key(s[0]) then [x] + s else [s[0]] + Insert(s[1..], x, key)
  }

  function Sort<T>(s: seq<T>, key: T -> int): seq<T> {
    if s == [] then [] else Insert(Sort(s[1..], key), s[0], key)
  }

  lemma {:induction false} InsertElements<T(!new)>(s: seq<T>, x: T, key: T -> int)
    ensures |Insert(s, x, key)| == |s| + 1
    ensures forall y :: y in Insert(s, x, key) <==> y in s || y == x
  {
    if s == [] || key(x) <= key(s[0]) {
    } else {
      InsertElements(s[1..], x, key);
      assert s == [s[0]] + s[1..];
    }
  }

  lemma {:induction false} InsertSorts<T(!new)>(s: seq<T>, x: T, key: T -> int)
    requires Ascending(s, key)
    requires forall y | y in s :: key(y) != key(x)
    ensures Ascending(Insert(s, x, key), key)
  {
    if s == [] || key(x) <= key(s[0]) {
    } else {
      InsertSorts(s[1..], x, key);
      InsertElements(s[1..], x, key);
      var rest := Insert(s[1..], x, key);
      forall k | 0 <= k < |rest|
        ensures key(s[0]) < key(rest[k])
      {
        assert rest[k] in s[1..] || rest[k] == x;
      }
    }
  }

  /** Sorting elements with distinct keys yields them in ascending order. */
  lemma {:induction false} SortSorts<T(!new)>(s: seq<T>, key: T -> int)
    requires forall i, j | 0 <= i < j < |s| :: key(s[i]) != key(s[j])
    ensures |Sort(s, key)| == |s|
    ensures forall x :: x in Sort(s, key) <==> x in s
    ensures Ascending(Sort(s, key), key)
  {
    if s != [] {
      assert s == [s[0]] + s[1..];
      SortSorts(s[1..], key);
      forall y | y in Sort(s[1..], key)
        ensures key(y) != key(s[0])
      {
        assert y in s[1..];
        var j :| 0 <= j < |s| - 1 && s[1..][j] == y;
        assert y == s[j + 1];
      }
      InsertElements(Sort(s[1..], key), s[0], key);
      InsertSorts(Sort(s[1..], key), s[0], key);
    }
  }

  /** Two ascending lists with the same elements are the same list. */
  lemma {:induction false} AscendingUnique<T(!new)>(a: seq<T>, b: seq<T>, key: T -> int)
    requires Ascending(a, key) && Ascending(b, key)
    requires forall x :: x in a <==> x in b
    ensures a == b
  {
    assert |a| > 0 ==> a[0] in b;
    assert |b| > 0 ==> b[0] in a;
    if a != [] {
      var a', b' := a[1..], b[1..];
      forall x
        ensures x in a' <==> x in b'
      {
        assert x in a' <==> x in a && x != a[0];
        assert x in b' <==> x in b && x != b[0];
      }
      AscendingUnique(a', b', key);
      assert a == [a[0]] + a' && b == [b[0]] + b';
    }
  }

  /** A set with fewer than `n` elements misses one of `n` numbers. */
  lemma MissingOne(from: nat, n: nat, c: set<nat>) returns (i: nat)
    requires |c| < n
    ensures from <= i < from + n && i !in c
    decreases n
  {
    i := from + n - 1;
    if i in c {
      i := MissingOne(from, n - 1, c - {i});
    }
  }
}
