/** Sorting by a "less" function, as `sort.Strings` and `sort.Slice` do.
    The model is an insertion sort: it puts each element after every element
    that is not greater than it, which is what Go's `sort.Slice` does on short
    slices. Under a total order, such as the byte order `sort.Strings` uses,
    the sorted result is unique, so the choice of algorithm is invisible to
    callers. Under an order that leaves ties, such as sorting ledger entries
    by timestamp with `sort.Slice`, the order of tied elements is the
    insertion sort's, which Go's matches only on short slices. */
module Sorting {

  /** `lt` is irreflexive and transitive. */
  ghost predicate StrictOrder<T(!new)>(lt: (T, T) -> bool) {
    (forall a :: !lt(a, a)) &&
    (forall a, b, c :: lt(a, b) && lt(b, c) ==> lt(a, c))
  }

  /** `lt` is a strict order under which any two different values are comparable. */
  ghost predicate TotalOrder<T(!new)>(lt: (T, T) -> bool) {
    StrictOrder(lt) && forall a, b :: a == b || lt(a, b) || lt(b, a)
  }

  /** No element is less than one that comes before it. */
  predicate SortedBy<T>(s: seq<T>, lt: (T, T) -> bool) {
    forall i, j :: 0 <= i < j < |s| ==> !lt(s[j], s[i])
  }

  /** Places `x` before the first element it is less than. */
  function Insert<T(==)>(x: T, s: seq<T>, lt: (T, T) -> bool): (r: seq<T>)
    ensures multiset(r) == multiset(s) + multiset{x}
  {
    if s == [] then [x]
    else if lt(x, s[0]) then [x] + s
    else
      assert s == [s[0]] + s[1..];
      [s[0]] + Insert(x, s[1..], lt)
  }

  /** Sorts `s`, keeping elements that are not less than one another in their input order. */
  function SortBy<T(==)>(s: seq<T>, lt: (T, T) -> bool): (r: seq<T>)
    ensures multiset(r) == multiset(s)
  {
    if s == [] then []
    else
      assert s == s[..|s| - 1] + [s[|s| - 1]];
      Insert(s[|s| - 1], SortBy(s[..|s| - 1], lt), lt)
  }

  lemma {:induction false} InsertSorted<T(!new)>(x: T, s: seq<T>, lt: (T, T) -> bool)
    requires StrictOrder(lt) && SortedBy(s, lt)
    ensures SortedBy(Insert(x, s, lt), lt)
  {
    if s != [] {
      if lt(x, s[0]) {
        var r := [x] + s;
        forall j | 0 < j < |r| ensures !lt(r[j], x) {
          assert r[j] == s[j - 1];
        }
      } else {
        var tail := Insert(x, s[1..], lt);
        InsertSorted(x, s[1..], lt);
        forall e | e in tail ensures !lt(e, s[0]) {
          assert e in multiset(tail);
          if e != x {
            assert e in multiset(s[1..]);
            var k :| 0 <= k < |s[1..]| && s[1..][k] == e;
            assert s[k + 1] == e;
          }
        }
        var r := [s[0]] + tail;
        forall i, j | 0 <= i < j < |r| ensures !lt(r[j], r[i]) {
          if i == 0 {
            assert r[j] == tail[j - 1] && r[j] in tail;
          }
        }
      }
    }
  }

  /** The result of `SortBy` is sorted. */
  lemma {:induction false} SortBySorted<T(!new)>(s: seq<T>, lt: (T, T) -> bool)
    requires StrictOrder(lt)
    ensures SortedBy(SortBy(s, lt), lt)
  {
    if s != [] {
      SortBySorted(s[..|s| - 1], lt);
      InsertSorted(s[|s| - 1], SortBy(s[..|s| - 1], lt), lt);
    }
  }

  /** An element not less than any element of `s` goes at the end. */
  lemma {:induction false} InsertLast<T>(x: T, s: seq<T>, lt: (T, T) -> bool)
    requires forall i :: 0 <= i < |s| ==> !lt(x, s[i])
    ensures Insert(x, s, lt) == s + [x]
  {
    if s != [] {
      InsertLast(x, s[1..], lt);
      assert s == [s[0]] + s[1..];
    }
  }

  /** Input that is already sorted comes out as it went in: the sort is stable. */
  lemma {:induction false} SortBySortedUnchanged<T>(s: seq<T>, lt: (T, T) -> bool)
    requires SortedBy(s, lt)
    ensures SortBy(s, lt) == s
  {
    if s != [] {
      var p := s[..|s| - 1];
      assert SortedBy(p, lt);
      SortBySortedUnchanged(p, lt);
      InsertLast(s[|s| - 1], p, lt);
      assert p + [s[|s| - 1]] == s;
    }
  }

  /** Under a total order, two sorted arrangements of one multiset start alike. */
  lemma SortedHeads<T(!new)>(a: seq<T>, b: seq<T>, lt: (T, T) -> bool)
    requires TotalOrder(lt)
    requires SortedBy(a, lt) && SortedBy(b, lt)
    requires a != [] && multiset(a) == multiset(b)
    ensures b != [] && a[0] == b[0]
  {
    assert a[0] in multiset(b) && b[0] in multiset(a);
    var i :| 0 <= i < |a| && a[i] == b[0];
    var j :| 0 <= j < |b| && b[j] == a[0];
    assert i == 0 || !lt(b[0], a[0]);
    assert j == 0 || !lt(a[0], b[0]);
  }

  /** Under a total order, a sorted arrangement of a multiset is unique. */
  lemma {:induction false} SortedUnique<T(!new)>(a: seq<T>, b: seq<T>, lt: (T, T) -> bool)
    requires TotalOrder(lt)
    requires SortedBy(a, lt) && SortedBy(b, lt)
    requires multiset(a) == multiset(b)
    ensures a == b
  {
    if a == [] {
      assert |b| == |multiset(b)| == 0;
    } else {
      SortedHeads(a, b, lt);
      TailMultiset(a);
      TailMultiset(b);
      SortedUnique(a[1..], b[1..], lt);
    }
  }

  lemma TailMultiset<T>(a: seq<T>)
    requires a != []
    ensures multiset(a[1..]) == multiset(a) - multiset{a[0]}
  {
    assert a == [a[0]] + a[1..];
  }

  /** Sorting by a total order depends only on the multiset of the input, so the
      order in which the elements were gathered does not matter. */
  lemma SortByCanonical<T(!new)>(a: seq<T>, b: seq<T>, lt: (T, T) -> bool)
    requires TotalOrder(lt) && multiset(a) == multiset(b)
    ensures SortBy(a, lt) == SortBy(b, lt)
  {
    SortBySorted(a, lt);
    SortBySorted(b, lt);
    SortedUnique(SortBy(a, lt), SortBy(b, lt), lt);
  }
}
