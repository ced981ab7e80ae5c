/** Two entries with the same timestamp and the merge `Ledger` performs.
    Sorting by timestamp alone leaves entries that share a timestamp in the
    order they were appended (as Go's `sort.Slice` does on inputs of at most
    6 elements, such as this one, in every Go version), so when a page repeats entries the held
    list already has, a repeat need not land next to its original and
    `dedupe`, which only compares neighbours, keeps it. Sorting by timestamp
    and then ledger id puts equal ids side by side. */
module KrakenLedgerFinding {
  import opened Results
  import opened GoValues
  import opened KrakenLedgerEntry
  import opened KrakenDedupe
  import opened KrakenLedger
  import opened KrakenLedgerPaging
  import Sorting
  import StringOrder
  import KrakenAssets

  /** Every entry of the example happens at the same instant. */
  const SameTime := Instant(0)

  const Conv := Conversions(_ => SameTime, s => ParseResult(Float64(s), None))

  /** One raw entry, reported under two ledger ids. */
  const Raw := RawLedgerEntry("R1", Float64("0"), "trade", "currency", "ZUSD", "1", "0", "1")

  /** The two entries `Raw` converts to. */
  const A := LedgerEntry("L-A", "R1", SameTime, "trade", "currency", "USD", Float64("1"), Float64("0"), Float64("1"))
  const B := LedgerEntry("L-B", "R1", SameTime, "trade", "currency", "USD", Float64("1"), Float64("0"), Float64("1"))

  /** A page that repeats both held entries, in the other order. */
  const Page: seq<(string, RawLedgerEntry)> := [("L-B", Raw), ("L-A", Raw)]

  lemma PageConverts()
    ensures Convert(Page, Conv) == [B, A]
  {
    KrakenAssets.AssetExamples();
    assert NewLedgerEntryFromRaw("L-A", Raw, Conv) == A;
    assert NewLedgerEntryFromRaw("L-B", Raw, Conv) == B;
    assert Page[..1] == [("L-B", Raw)];
    assert Page[..1][..0] == [];
  }

  lemma ExampleIds()
    ensures A.ledgerId == "L-A" && B.ledgerId == "L-B" && A != B
    ensures A.timestamp == SameTime && B.timestamp == SameTime
    ensures EntryLess(A, B) && !EntryLess(B, A) && !EntryLess(A, A) && !EntryLess(B, B)
  {
    assert "L-A"[2] != "L-B"[2];
    assert "L-A"[..2] == "L-B"[..2] && "L-A"[2..] == "A" && "L-B"[2..] == "B";
    assert StringOrder.Less("L-A", "L-B") by {
      assert "L-A"[1..][1..] == "A" && "L-B"[1..][1..] == "B";
    }
    assert !StringOrder.Less("L-B", "L-A") by {
      assert "L-A"[1..][1..] == "A" && "L-B"[1..][1..] == "B";
    }
    StringOrder.Irreflexive("L-A");
    StringOrder.Irreflexive("L-B");
  }

  /** As written, merging the page into the held [A, B] keeps a second A: the
      result repeats a ledger id and is longer than before, so the loop does
      not see a stall and asks for another page. */
  lemma AsWrittenKeepsDuplicate()
    ensures Merge([A, B], Page, Conv, ByTimestamp) == [A, B, A]
    ensures !DistinctIds(Merge([A, B], Page, Conv, ByTimestamp))
    ensures |Merge([A, B], Page, Conv, ByTimestamp)| != |[A, B]|
  {
    AsWrittenMergeUnfolds();
    TimestampSortKeepsOrder();
    DedupedInterleaved();
    RepeatedId();
  }

  /** All four entries share the timestamp, so sorting by timestamp moves nothing. */
  lemma TimestampSortKeepsOrder()
    ensures Sorting.SortBy([A, B, B, A], ByTimestamp) == [A, B, B, A]
  {
    ExampleIds();
    assert Sorting.SortedBy([A, B, B, A], ByTimestamp);
    Sorting.SortBySortedUnchanged([A, B, B, A], ByTimestamp);
  }

  lemma AsWrittenMergeUnfolds()
    ensures Merge([A, B], Page, Conv, ByTimestamp) == Deduped(Sorting.SortBy([A, B, B, A], ByTimestamp))
  {
    PageConverts();
    assert [A, B] + [B, A] == [A, B, B, A];
  }

  lemma RepeatedId()
    ensures !DistinctIds([A, B, A])
  {
    assert [A, B, A][0].ledgerId == [A, B, A][2].ledgerId;
  }

  lemma DedupedInterleaved()
    ensures Deduped([A, B, B, A]) == [A, B, A]
  {
    assert Deduped([A]) == [A];
    assert Deduped([A, B]) == [A, B] by { assert [A, B][..1] == [A]; }
    assert Deduped([A, B, B]) == [A, B] by { assert [A, B, B][..2] == [A, B]; }
    assert [A, B, B, A][..3] == [A, B, B];
  }

  lemma DedupedGrouped()
    ensures Deduped([A, A, B, B]) == [A, B]
  {
    assert Deduped([A]) == [A];
    assert Deduped([A, A]) == [A] by { assert [A, A][..1] == [A]; }
    assert Deduped([A, A, B]) == [A, B] by { assert [A, A, B][..2] == [A, A]; }
    assert [A, A, B, B][..3] == [A, A, B];
  }

  lemma SortLastStep()
    ensures Sorting.SortBy([A, B, B, A], EntryLess) == Sorting.Insert(A, Sorting.SortBy([A, B, B], EntryLess), EntryLess)
  {
    assert [A, B, B, A][..3] == [A, B, B];
  }

  lemma HeldAlreadySorted()
    ensures Sorting.SortBy([A, B, B], EntryLess) == [A, B, B]
  {
    ExampleIds();
    assert Sorting.SortedBy([A, B, B], EntryLess);
    Sorting.SortBySortedUnchanged([A, B, B], EntryLess);
  }

  lemma InsertSecondA()
    ensures Sorting.Insert(A, [A, B, B], EntryLess) == [A, A, B, B]
  {
    ExampleIds();
    assert [A, B, B][1..] == [B, B];
    assert Sorting.Insert(A, [B, B], EntryLess) == [A, B, B];
  }

  /** Sorting by timestamp and then id brings the two A's together. */
  lemma SortedGrouped()
    ensures Sorting.SortBy([A, B, B, A], EntryLess) == [A, A, B, B]
  {
    SortLastStep();
    HeldAlreadySorted();
    InsertSecondA();
  }

  lemma CorrectedMergeUnfolds()
    ensures Merge([A, B], Page, Conv, EntryLess) == Deduped(Sorting.SortBy([A, B, B, A], EntryLess))
  {
    PageConverts();
    assert [A, B] + [B, A] == [A, B, B, A];
  }

  /** With ledger ids breaking ties, the same merge removes the repeats. */
  lemma CorrectedDropsDuplicate()
    ensures Merge([A, B], Page, Conv, EntryLess) == [A, B]
    ensures DistinctIds(Merge([A, B], Page, Conv, EntryLess))
  {
    assert Merge([A, B], Page, Conv, EntryLess) == [A, B] by {
      CorrectedMergeUnfolds();
      SortedGrouped();
      DedupedGrouped();
    }
    TwoIdsDistinct();
  }

  lemma TwoIdsDistinct()
    ensures DistinctIds([A, B])
  {
    ExampleIds();
  }

  /** The first page, holding the two entries in id order. */
  const First: seq<(string, RawLedgerEntry)> := [("L-A", Raw), ("L-B", Raw)]

  const Options := GetLedgerOptions(0, "")

  /** The server sends the first page, then the same entries in the other
      order, then an empty page. */
  const Replies: seq<LedgerReply> := [
    Decoded(RawLedgerResponse([], 2, First)),
    Decoded(RawLedgerResponse([], 2, Page)),
    Decoded(RawLedgerResponse([], 2, []))
  ]

  lemma FirstConverts()
    ensures Convert(First, Conv) == [A, B]
  {
    KrakenAssets.AssetExamples();
    assert NewLedgerEntryFromRaw("L-A", Raw, Conv) == A;
    assert NewLedgerEntryFromRaw("L-B", Raw, Conv) == B;
    assert First[..1] == [("L-A", Raw)];
    assert First[..1][..0] == [];
  }

  /** Each order keeps the first page as it is. */
  lemma FirstMerge(lt: Order)
    requires lt == ByTimestamp || lt == EntryLess
    ensures Merge([], First, Conv, lt) == [A, B]
  {
    assert Merge([], First, Conv, lt) == Deduped(Sorting.SortBy([A, B], lt)) by {
      FirstConverts();
      assert [] + [A, B] == [A, B];
    }
    PairSorted(lt);
    Sorting.SortBySortedUnchanged([A, B], lt);
    TwoIdsDeduped();
  }

  lemma PairSorted(lt: Order)
    requires lt == ByTimestamp || lt == EntryLess
    ensures Sorting.SortedBy([A, B], lt)
  {
    ExampleIds();
  }

  lemma TwoIdsDeduped()
    ensures Deduped([A, B]) == [A, B]
  {
    assert Deduped([A]) == [A];
    assert [A, B][..1] == [A];
  }

  /** Under either order the first reply moves the cursor to the page held. */
  lemma FirstStep(lt: Order)
    requires lt == ByTimestamp || lt == EntryLess
    ensures Step(Options, Initial, Replies[0], Conv, lt) == Continue(Cursor([A, B], Some(SameTime), 2))
  {
    FirstMerge(lt);
  }

  /** An empty page ends the run with what is held. */
  lemma LastStep(entries: seq<LedgerEntry>, lt: Order)
    ensures Fetch(Options, Cursor(entries, Some(SameTime), |entries|), Replies[2..], Conv, lt).0 == Done(entries)
  {
    assert Replies[2..][0] == Replies[2];
  }

  /** As written, the second reply is taken for news: the loop holds [A, B, A]
      and asks for another page. */
  lemma AsWrittenLoopContinues()
    ensures Step(Options, Cursor([A, B], Some(SameTime), 2), Replies[1], Conv, ByTimestamp) ==
      Continue(Cursor([A, B, A], Some(SameTime), 3))
  {
    AsWrittenKeepsDuplicate();
  }

  /** As written, a run whose pages give every ledger id one time still hands
      back the id of A twice. */
  lemma AsWrittenLedgerRepeatsId()
    ensures RepliesStamped(Replies, Conv, _ => SameTime)
    ensures Fetch(Options, Initial, Replies, Conv, ByTimestamp).0 == Done([A, B, A])
    ensures !DistinctIds(OutcomeEntries(Fetch(Options, Initial, Replies, Conv, ByTimestamp).0))
  {
    FirstStep(ByTimestamp);
    AsWrittenLoopContinues();
    LastStep([A, B, A], ByTimestamp);
    assert Replies[1..][0] == Replies[1] && Replies[1..][1..] == Replies[2..];
    RepeatedId();
  }

  /** ... and the loop stops there: the page brought nothing new. */
  lemma CorrectedLoopStops()
    ensures Step(Options, Cursor([A, B], Some(SameTime), 2), Replies[1], Conv, EntryLess) == Stop(Done([A, B]))
  {
    CorrectedDropsDuplicate();
  }

  /** The corrected run on the same replies hands back A and B once each. */
  lemma CorrectedLedgerStops()
    ensures Fetch(Options, Initial, Replies, Conv, EntryLess).0 == Done([A, B])
  {
    FirstStep(EntryLess);
    CorrectedLoopStops();
    assert Replies[1..][0] == Replies[1];
  }
}
