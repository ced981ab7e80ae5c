/** `dedupe` from the Kraken ledger service: one pass that keeps an entry
    unless its ledger id equals the id of the last entry kept. */
module KrakenDedupe {
  import opened KrakenLedgerEntry
  import Sorting
  import StringOrder

  /** What `dedupe` returns for `s`, defined on ever longer prefixes the way the
      loop consumes its input. */
  function Deduped(s: seq<LedgerEntry>): (r: seq<LedgerEntry>)
    ensures |r| <= |s|
    ensures r == [] <==> s == []
    ensures s != [] ==> r[0] == s[0] && r[|r| - 1].ledgerId == s[|s| - 1].ledgerId
  {
    if s == [] then []
    else
      var kept := Deduped(s[..|s| - 1]);
      var x := s[|s| - 1];
      if kept != [] && kept[|kept| - 1].ledgerId == x.ledgerId then kept else kept + [x]
  }

  /** `dedupe`. */
  method Dedupe(entries: seq<LedgerEntry>) returns (deduped: seq<LedgerEntry>)
    ensures deduped == Deduped(entries)
  {
    deduped := [];
    for i := 0 to |entries|
      invariant deduped == Deduped(entries[..i])
    {
      var entry := entries[i];
      assert entries[..i + 1][..i] == entries[..i];
      if |deduped| == 0 {
        deduped := deduped + [entry];
      } else if deduped[|deduped| - 1].ledgerId != entry.ledgerId {
        deduped := deduped + [entry];
      } else {
        // A duplicate of the last entry kept.
      }
    }
    assert entries[..|entries|] == entries;
  }

  /** An independent description: the entries that start a run of equal ledger
      ids, i.e. the first entry and every entry whose id differs from the id of
      the entry just before it in the input. */
  function RunHeads(s: seq<LedgerEntry>): seq<LedgerEntry> {
    if s == [] then []
    else
      var n := |s|;
      RunHeads(s[..n - 1]) + (if n == 1 || s[n - 2].ledgerId != s[n - 1].ledgerId then [s[n - 1]] else [])
  }

  /** `dedupe` drops an entry exactly when its id equals that of the entry just
      before it: comparing with the last entry kept is the same as comparing
      with the previous input entry. */
  lemma {:induction false} DedupedIsRunHeads(s: seq<LedgerEntry>)
    ensures Deduped(s) == RunHeads(s)
  {
    if s != [] {
      DedupedIsRunHeads(s[..|s| - 1]);
      var p := s[..|s| - 1];
      if p != [] {
        assert p[|p| - 1] == s[|s| - 2];
      }
    }
  }

  /** No two neighbours in the output share a ledger id. */
  predicate NoAdjacentDuplicates(s: seq<LedgerEntry>) {
    forall i :: 0 < i < |s| ==> s[i - 1].ledgerId != s[i].ledgerId
  }

  lemma {:induction false} DedupedNoAdjacentDuplicates(s: seq<LedgerEntry>)
    ensures NoAdjacentDuplicates(Deduped(s))
  {
    if s != [] {
      DedupedNoAdjacentDuplicates(s[..|s| - 1]);
    }
  }

  /** Input that already has no adjacent duplicates passes through unchanged. */
  lemma {:induction false} DedupedUnchanged(s: seq<LedgerEntry>)
    requires NoAdjacentDuplicates(s)
    ensures Deduped(s) == s
  {
    if s != [] {
      var p := s[..|s| - 1];
      assert NoAdjacentDuplicates(p);
      DedupedUnchanged(p);
      if |p| > 0 {
        assert p[|p| - 1] == s[|s| - 2];
      }
      assert p + [s[|s| - 1]] == s;
    }
  }

  /** `dedupe` is idempotent. */
  lemma DedupedIdempotent(s: seq<LedgerEntry>)
    ensures Deduped(Deduped(s)) == Deduped(s)
  {
    DedupedNoAdjacentDuplicates(s);
    DedupedUnchanged(Deduped(s));
  }

  /** `a` can be obtained from `b` by deleting elements. */
  predicate IsSubsequence<T(==)>(a: seq<T>, b: seq<T>)
    decreases |b|
  {
    if a == [] then true
    else if b == [] then false
    else
      (a[|a| - 1] == b[|b| - 1] && IsSubsequence(a[..|a| - 1], b[..|b| - 1])) ||
      IsSubsequence(a, b[..|b| - 1])
  }

  lemma {:induction false} SubsequenceSnoc<T>(a: seq<T>, b: seq<T>, x: T)
    requires IsSubsequence(a, b)
    ensures IsSubsequence(a, b + [x])
  {
    assert (b + [x])[..|b|] == b;
  }

  /** The output keeps input entries in input order. */
  lemma {:induction false} DedupedSubsequence(s: seq<LedgerEntry>)
    ensures IsSubsequence(Deduped(s), s)
  {
    if s != [] {
      var p := s[..|s| - 1];
      DedupedSubsequence(p);
      var kept := Deduped(p);
      var x := s[|s| - 1];
      assert s == p + [x];
      if kept != [] && kept[|kept| - 1].ledgerId == x.ledgerId {
        SubsequenceSnoc(kept, p, x);
      } else {
        assert (kept + [x])[..|kept|] == kept;
      }
    }
  }

  lemma {:induction false} SubsequenceMembers<T>(a: seq<T>, b: seq<T>)
    requires IsSubsequence(a, b)
    ensures forall x :: x in a ==> x in b
    decreases |b|
  {
    if a != [] && b != [] {
      var a', b' := a[..|a| - 1], b[..|b| - 1];
      if a[|a| - 1] == b[|b| - 1] && IsSubsequence(a', b') {
        SubsequenceMembers(a', b');
        assert a == a' + [a[|a| - 1]] && b == b' + [b[|b| - 1]];
      } else {
        SubsequenceMembers(a, b');
        assert b == b' + [b[|b| - 1]];
      }
    }
  }

  /** A subsequence of a sorted sequence is sorted. */
  lemma {:induction false} SubsequenceSorted<T>(a: seq<T>, b: seq<T>, lt: (T, T) -> bool)
    requires IsSubsequence(a, b) && Sorting.SortedBy(b, lt)
    ensures Sorting.SortedBy(a, lt)
    decreases |b|
  {
    if a != [] && b != [] {
      var a', b' := a[..|a| - 1], b[..|b| - 1];
      assert Sorting.SortedBy(b', lt);
      if a[|a| - 1] == b[|b| - 1] && IsSubsequence(a', b') {
        SubsequenceSorted(a', b', lt);
        SubsequenceMembers(a', b');
        forall i | 0 <= i < |a'| ensures !lt(a[|a| - 1], a'[i]) {
          assert a'[i] in b';
          var k :| 0 <= k < |b'| && b'[k] == a'[i];
          assert b[k] == a'[i];
        }
        assert a == a' + [a[|a| - 1]];
      } else {
        SubsequenceSorted(a, b', lt);
      }
    }
  }

  /** `dedupe` keeps a sorted input sorted. */
  lemma DedupedSorted(s: seq<LedgerEntry>, lt: (LedgerEntry, LedgerEntry) -> bool)
    requires Sorting.SortedBy(s, lt)
    ensures Sorting.SortedBy(Deduped(s), lt)
  {
    DedupedSubsequence(s);
    SubsequenceSorted(Deduped(s), s, lt);
  }

  /** The ledger ids occurring in `s`. */
  function Ids(s: seq<LedgerEntry>): set<string> {
    set i | 0 <= i < |s| :: s[i].ledgerId
  }

  lemma IdsSnoc(s: seq<LedgerEntry>, x: LedgerEntry)
    ensures Ids(s + [x]) == Ids(s) + {x.ledgerId}
  {
    var t := s + [x];
    forall id | id in Ids(t) ensures id in Ids(s) + {x.ledgerId} {
      var i :| 0 <= i < |t| && t[i].ledgerId == id;
      if i < |s| { assert t[i] == s[i]; }
    }
    forall id | id in Ids(s) ensures id in Ids(t) {
      var i :| 0 <= i < |s| && s[i].ledgerId == id;
      assert t[i] == s[i];
    }
    assert t[|s|] == x;
  }

  /** `dedupe` drops only repeated ids: the output has exactly the input's ids. */
  lemma {:induction false} DedupedKeepsIds(s: seq<LedgerEntry>)
    ensures Ids(Deduped(s)) == Ids(s)
  {
    if s != [] {
      var p := s[..|s| - 1];
      var x := s[|s| - 1];
      DedupedKeepsIds(p);
      var kept := Deduped(p);
      assert s == p + [x];
      IdsSnoc(p, x);
      IdsSnoc(kept, x);
      if kept != [] && kept[|kept| - 1].ledgerId == x.ledgerId {
        assert x.ledgerId in Ids(kept);
      }
    }
  }

  /** In a sequence sorted by timestamp and then id, where each id has one
      timestamp, an entry sharing the last entry's id forces the entry just
      before the last to share it too. */
  lemma SameIdAdjacent(s: seq<LedgerEntry>, m: int)
    requires Sorting.SortedBy(s, EntryLess) && ConsistentIds(s)
    requires 0 <= m < |s| - 1
    ensures s[m].ledgerId == s[|s| - 1].ledgerId ==> s[|s| - 2].ledgerId == s[|s| - 1].ledgerId
  {
    var n := |s|;
    var x, y, z := s[n - 1], s[n - 2], s[m];
    StringOrder.Total(y.ledgerId, x.ledgerId);
    if m < n - 2 {
      assert !EntryLess(y, z) && !EntryLess(x, y);
    }
  }

  /** When the last two entries differ in id, no earlier entry has the last one's id. */
  lemma NoEarlierSameId(s: seq<LedgerEntry>)
    requires Sorting.SortedBy(s, EntryLess) && ConsistentIds(s)
    requires |s| >= 2 && s[|s| - 2].ledgerId != s[|s| - 1].ledgerId
    ensures forall e :: e in s[..|s| - 1] ==> e.ledgerId != s[|s| - 1].ledgerId
  {
    forall e | e in s[..|s| - 1] ensures e.ledgerId != s[|s| - 1].ledgerId {
      var m :| 0 <= m < |s| - 1 && s[..|s| - 1][m] == e;
      SameIdAdjacent(s, m);
    }
  }

  /** The conditions of `DedupedDistinct` hold of every prefix. */
  lemma PrefixSortedConsistent(s: seq<LedgerEntry>)
    requires Sorting.SortedBy(s, EntryLess) && ConsistentIds(s) && s != []
    ensures Sorting.SortedBy(s[..|s| - 1], EntryLess) && ConsistentIds(s[..|s| - 1])
  {
    assert forall e :: e in s[..|s| - 1] ==> e in s;
  }

  lemma DistinctSnoc(kept: seq<LedgerEntry>, x: LedgerEntry)
    requires DistinctIds(kept)
    requires forall e :: e in kept ==> e.ledgerId != x.ledgerId
    ensures DistinctIds(kept + [x])
  {
    forall i, j | 0 <= i < j < |kept| + 1 ensures (kept + [x])[i].ledgerId != (kept + [x])[j].ledgerId {
      if j == |kept| {
        assert (kept + [x])[i] == kept[i] && kept[i] in kept;
      } else {
        assert (kept + [x])[i] == kept[i] && (kept + [x])[j] == kept[j];
      }
    }
  }

  /** With the entries sorted by timestamp and then id, and each id carrying one
      timestamp, `dedupe` leaves every ledger id exactly once. */
  lemma {:induction false} DedupedDistinct(s: seq<LedgerEntry>)
    requires Sorting.SortedBy(s, EntryLess) && ConsistentIds(s)
    ensures DistinctIds(Deduped(s))
  {
    if s != [] {
      var p := s[..|s| - 1];
      var x := s[|s| - 1];
      PrefixSortedConsistent(s);
      DedupedDistinct(p);
      var kept := Deduped(p);
      if kept == [] {
        assert Deduped(s) == [x];
      } else if kept[|kept| - 1].ledgerId != x.ledgerId {
        assert p[|p| - 1] == s[|s| - 2];
        NoEarlierSameId(s);
        DedupedSubsequence(p);
        SubsequenceMembers(kept, p);
        DistinctSnoc(kept, x);
      }
    }
  }
}
