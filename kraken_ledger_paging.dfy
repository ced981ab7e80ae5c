/** What the Kraken ledger pager guarantees, proved about `Fetch` (and so,
    through `Ledger`'s contract, about the loop). For the loop as written,
    which sorts by `ByTimestamp`, and for any other ledger order: the
    entries it holds stay sorted oldest first, it never returns more than
    `count` entries, a rate-limited request is sent again unchanged, and
    every request asks for entries no later than the one before it. Only
    for the corrected loop, which sorts by `EntryLess`: no ledger id is
    returned twice. */
module KrakenLedgerPaging {
  import opened Results
  import opened GoValues
  import opened KrakenLedgerEntry
  import opened KrakenDedupe
  import opened KrakenLedger
  import Sorting
  import QueryString

  type Order = (LedgerEntry, LedgerEntry) -> bool

  /** What holds of the loop state at the top of every iteration. */
  ghost predicate Good(options: GetLedgerOptions, c: Cursor, lt: Order) {
    Sorting.SortedBy(c.entries, lt) &&
    c.lastCount == |c.entries| &&
    (c.entries == [] ==> c.end.None?) &&
    (c.entries != [] ==> c.end == Some(c.entries[0].timestamp)) &&
    (options.count > 0 ==> |c.entries| < options.count)
  }

  /** The entries an outcome carries, if any. */
  function OutcomeEntries(o: LedgerOutcome): (r: seq<LedgerEntry>)
    ensures o.RequestFailed? || o.NilResponse? ==> r == []
    ensures o.Done? || o.ApiError? || o.Unanswered? ==> r == o.entries
  {
    match o
    case Done(entries) => entries
    case ApiError(entries, _) => entries
    case Unanswered(entries) => entries
    case _ => []
  }

  /** The entries handed back are sorted, and a successful run returns at
      most `count` of them when a count is set. */
  ghost predicate GoodOutcome(options: GetLedgerOptions, o: LedgerOutcome, lt: Order) {
    Sorting.SortedBy(OutcomeEntries(o), lt) &&
    (o.Done? && options.count > 0 ==> |o.entries| <= options.count)
  }

  lemma InitialGood(options: GetLedgerOptions, lt: Order)
    ensures Good(options, Initial, lt)
  {
  }

  /** A merged page is sorted by the order it was merged with. */
  lemma MergeSorted(entries: seq<LedgerEntry>, page: seq<(string, RawLedgerEntry)>, conv: Conversions, lt: Order)
    requires Sorting.StrictOrder(lt)
    ensures Sorting.SortedBy(Merge(entries, page, conv, lt), lt)
  {
    var sorted := Sorting.SortBy(entries + Convert(page, conv), lt);
    Sorting.SortBySorted(entries + Convert(page, conv), lt);
    DedupedSorted(sorted, lt);
  }

  /** A contiguous piece of a sorted sequence is sorted. */
  lemma SliceSorted<T>(s: seq<T>, k: int, lt: (T, T) -> bool)
    requires Sorting.SortedBy(s, lt) && 0 <= k <= |s|
    ensures Sorting.SortedBy(s[k..], lt)
  {
    forall i, j | 0 <= i < j < |s[k..]| ensures !lt(s[k..][j], s[k..][i]) {
      assert s[k..][j] == s[k + j] && s[k..][i] == s[k + i];
    }
  }

  /** One iteration keeps the loop state good, and a run that stops there
      hands back a good outcome. */
  lemma StepGood(options: GetLedgerOptions, c: Cursor, reply: LedgerReply, conv: Conversions, lt: Order)
    requires Sorting.StrictOrder(lt) && Good(options, c, lt)
    ensures Step(options, c, reply, conv, lt).Continue? ==> Good(options, Step(options, c, reply, conv, lt).next, lt)
    ensures Step(options, c, reply, conv, lt).Stop? ==> GoodOutcome(options, Step(options, c, reply, conv, lt).outcome, lt)
  {
    if reply.Decoded? && |reply.response.errors| == 0 && |reply.response.ledger| > 0 {
      var merged := Merge(c.entries, reply.response.ledger, conv, lt);
      MergeSorted(c.entries, reply.response.ledger, conv, lt);
      PageStepCases(options, c, merged);
      if |merged| != c.lastCount && options.count > 0 && |merged| >= options.count {
        SliceSorted(merged, |merged| - options.count, lt);
      }
    }
  }

  /** Whatever the server replies, the pager hands back sorted entries, and
      no more than `count` of them on success. */
  lemma {:induction false} FetchGood(options: GetLedgerOptions, c: Cursor, replies: seq<LedgerReply>, conv: Conversions, lt: Order)
    requires Sorting.StrictOrder(lt) && Good(options, c, lt)
    ensures GoodOutcome(options, Fetch(options, c, replies, conv, lt).0, lt)
    decreases |replies|
  {
    if replies != [] {
      StepGood(options, c, replies[0], conv, lt);
      var step := Step(options, c, replies[0], conv, lt);
      if step.Continue? {
        FetchGood(options, step.next, replies[1..], conv, lt);
      }
    }
  }

  /** Sorting by any ledger order, `Ledger` returns its entries sorted by that
      order, so oldest first, and at most `count` of them on success. */
  lemma LedgerSortedAndBounded(options: GetLedgerOptions, replies: seq<LedgerReply>, conv: Conversions, lt: Order)
    requires LedgerOrder(lt)
    ensures var entries := OutcomeEntries(Fetch(options, Initial, replies, conv, lt).0);
      Sorting.SortedBy(entries, lt) &&
      (forall i, j :: 0 <= i < j < |entries| ==> entries[i].timestamp.unixNanos <= entries[j].timestamp.unixNanos)
    ensures var o := Fetch(options, Initial, replies, conv, lt).0;
      o.Done? && options.count > 0 ==> |o.entries| <= options.count
  {
    FetchGood(options, Initial, replies, conv, lt);
    SortedAscending(OutcomeEntries(Fetch(options, Initial, replies, conv, lt).0), lt);
  }

  /** The loop as written, which sorts by timestamp alone, returns its
      entries oldest first, and at most `count` of them on success. */
  lemma AsWrittenSortedAndBounded(options: GetLedgerOptions, replies: seq<LedgerReply>, conv: Conversions)
    ensures var entries := OutcomeEntries(Fetch(options, Initial, replies, conv, ByTimestamp).0);
      forall i, j :: 0 <= i < j < |entries| ==> entries[i].timestamp.unixNanos <= entries[j].timestamp.unixNanos
    ensures var o := Fetch(options, Initial, replies, conv, ByTimestamp).0;
      o.Done? && options.count > 0 ==> |o.entries| <= options.count
  {
    ByTimestampIsLedgerOrder();
    LedgerSortedAndBounded(options, replies, conv, ByTimestamp);
  }

  /** A rate-limit error changes nothing: the same request is sent again and
      the run goes on as if the error had not happened. */
  lemma RateLimitRetries(options: GetLedgerOptions, c: Cursor, response: RawLedgerResponse,
                         replies: seq<LedgerReply>, conv: Conversions, lt: Order)
    requires |response.errors| > 0 && response.errors[0] == RateLimitExceeded
    ensures Fetch(options, c, [Decoded(response)] + replies, conv, lt) ==
      After([RequestParams(options, c.end)], Fetch(options, c, replies, conv, lt))
  {
    var all := [Decoded(response)] + replies;
    assert all[0] == Decoded(response) && all[1..] == replies;
  }

  /** Any other API error ends the run with the entries gathered so far. */
  lemma ApiErrorStops(options: GetLedgerOptions, c: Cursor, response: RawLedgerResponse,
                      replies: seq<LedgerReply>, conv: Conversions, lt: Order)
    requires |response.errors| > 0 && response.errors[0] != RateLimitExceeded
    ensures Fetch(options, c, [Decoded(response)] + replies, conv, lt) ==
      (ApiError(c.entries, response.errors[0]), [RequestParams(options, c.end)])
  {
    var all := [Decoded(response)] + replies;
    assert all[0] == Decoded(response);
  }

  /** A merged page starts with the oldest entry, so its first timestamp is no
      later than that of any entry held before. */
  lemma MergeStartsNoLater(entries: seq<LedgerEntry>, page: seq<(string, RawLedgerEntry)>, conv: Conversions, lt: Order)
    requires LedgerOrder(lt) && entries != []
    ensures var m := Merge(entries, page, conv, lt);
      m != [] && m[0].timestamp.unixNanos <= entries[0].timestamp.unixNanos
  {
    var all := entries + Convert(page, conv);
    var sorted := Sorting.SortBy(all, lt);
    Sorting.SortBySorted(all, lt);
    assert all[0] == entries[0];
    assert entries[0] in multiset(sorted);
    var k :| 0 <= k < |sorted| && sorted[k] == entries[0];
    assert k == 0 || !lt(sorted[k], sorted[0]);
  }

  /** The cursor only moves back in time: a continuing iteration keeps an
      `end` and never moves it later. */
  lemma StepMovesEndBack(options: GetLedgerOptions, c: Cursor, reply: LedgerReply, conv: Conversions, lt: Order)
    requires LedgerOrder(lt) && Good(options, c, lt)
    ensures var step := Step(options, c, reply, conv, lt);
      step.Continue? && c.end.Some? ==>
        step.next.end.Some? && step.next.end.value.unixNanos <= c.end.value.unixNanos
  {
    if reply.Decoded? && |reply.response.errors| == 0 && |reply.response.ledger| > 0 && c.entries != [] {
      var merged := Merge(c.entries, reply.response.ledger, conv, lt);
      MergeStartsNoLater(c.entries, reply.response.ledger, conv, lt);
      PageStepCases(options, c, merged);
    }
  }

  /** The `end` a request carries, as the integer it was set to. */
  function EndOf(p: QueryString.Params): (r: Option<int>)
    ensures r.Some? ==> "end" in p && p["end"] == Int(r.value)
  {
    if "end" in p && p["end"].Int? then Some(p["end"].i) else None
  }

  /** Once a request carries an `end`, every later one carries one no larger. */
  ghost predicate EndsMoveBack(requests: seq<QueryString.Params>) {
    forall i :: 0 < i < |requests| && EndOf(requests[i - 1]).Some? ==>
      EndOf(requests[i]).Some? && EndOf(requests[i]).value <= EndOf(requests[i - 1]).value
  }

  lemma {:induction false} FetchEndsMoveBack(options: GetLedgerOptions, c: Cursor, replies: seq<LedgerReply>, conv: Conversions, lt: Order)
    requires LedgerOrder(lt) && Good(options, c, lt)
    ensures EndsMoveBack(Fetch(options, c, replies, conv, lt).1)
    decreases |replies|
  {
    if replies != [] {
      var step := Step(options, c, replies[0], conv, lt);
      if step.Continue? {
        StepGood(options, c, replies[0], conv, lt);
        StepMovesEndBack(options, c, replies[0], conv, lt);
        FetchEndsMoveBack(options, step.next, replies[1..], conv, lt);
        var params := RequestParams(options, c.end);
        var rest := Fetch(options, step.next, replies[1..], conv, lt).1;
        var all := [params] + rest;
        assert Fetch(options, c, replies, conv, lt).1 == all;
        if c.end.Some? && rest != [] {
          UnixMonotone(step.next.end.value, c.end.value);
        }
        forall i | 0 < i < |all| && EndOf(all[i - 1]).Some?
          ensures EndOf(all[i]).Some? && EndOf(all[i]).value <= EndOf(all[i - 1]).value
        {
          assert all[i] == rest[i - 1];
          if i > 1 {
            assert all[i - 1] == rest[i - 2];
          }
        }
      }
    }
  }

  /** Sorting by any ledger order, `Ledger`'s first request has no `end`, and
      the window it asks for only ever moves back in time. */
  lemma LedgerPagesBackwards(options: GetLedgerOptions, replies: seq<LedgerReply>, conv: Conversions, lt: Order)
    requires LedgerOrder(lt) && replies != []
    ensures var requests := Fetch(options, Initial, replies, conv, lt).1;
      requests != [] && "end" !in requests[0] && EndsMoveBack(requests)
  {
    FetchEndsMoveBack(options, Initial, replies, conv, lt);
  }

  /** The loop as written pages backwards: its first request has no `end`,
      and every later `end` is no larger than the one before it. */
  lemma AsWrittenPagesBackwards(options: GetLedgerOptions, replies: seq<LedgerReply>, conv: Conversions)
    requires replies != []
    ensures var requests := Fetch(options, Initial, replies, conv, ByTimestamp).1;
      requests != [] && "end" !in requests[0] && EndsMoveBack(requests)
  {
    ByTimestampIsLedgerOrder();
    LedgerPagesBackwards(options, replies, conv, ByTimestamp);
  }

  /** The server's own time for each ledger id. */
  ghost predicate Stamped(s: seq<LedgerEntry>, stamp: string -> Instant) {
    forall e :: e in s ==> e.timestamp == stamp(e.ledgerId)
  }

  /** Every entry of every decoded page carries its ledger id's time. */
  ghost predicate RepliesStamped(replies: seq<LedgerReply>, conv: Conversions, stamp: string -> Instant) {
    forall k, i :: 0 <= k < |replies| && replies[k].Decoded? && 0 <= i < |replies[k].response.ledger| ==>
      conv.toTime(replies[k].response.ledger[i].1.time) == stamp(replies[k].response.ledger[i].0)
  }

  /** Held entries that are each stamped with their id's time and pairwise
      distinct. */
  ghost predicate Clean(s: seq<LedgerEntry>, stamp: string -> Instant) {
    Stamped(s, stamp) && DistinctIds(s)
  }

  lemma ConvertStamped(page: seq<(string, RawLedgerEntry)>, conv: Conversions, stamp: string -> Instant)
    requires forall i :: 0 <= i < |page| ==> conv.toTime(page[i].1.time) == stamp(page[i].0)
    ensures Stamped(Convert(page, conv), stamp)
  {
    var r := Convert(page, conv);
    forall e | e in r ensures e.timestamp == stamp(e.ledgerId) {
      var i :| 0 <= i < |r| && r[i] == e;
    }
  }

  /** Merging by the corrected order a page whose entries carry their ids'
      times leaves every ledger id once. */
  lemma CorrectedMergeClean(entries: seq<LedgerEntry>, page: seq<(string, RawLedgerEntry)>, conv: Conversions, stamp: string -> Instant)
    requires Stamped(entries, stamp)
    requires forall i :: 0 <= i < |page| ==> conv.toTime(page[i].1.time) == stamp(page[i].0)
    ensures Clean(Merge(entries, page, conv, EntryLess), stamp)
  {
    var all := entries + Convert(page, conv);
    var sorted := Sorting.SortBy(all, EntryLess);
    ConvertStamped(page, conv, stamp);
    forall e | e in sorted ensures e.timestamp == stamp(e.ledgerId) {
      assert e in multiset(all);
      assert e in entries || e in Convert(page, conv);
    }
    EntryLessIsStrict();
    Sorting.SortBySorted(all, EntryLess);
    DedupedDistinct(sorted);
    DedupedSubsequence(sorted);
    SubsequenceMembers(Deduped(sorted), sorted);
  }

  /** A contiguous piece of a clean sequence is clean. */
  lemma SliceClean(s: seq<LedgerEntry>, k: int, stamp: string -> Instant)
    requires Clean(s, stamp) && 0 <= k <= |s|
    ensures Clean(s[k..], stamp)
  {
    forall i, j | 0 <= i < j < |s[k..]| ensures s[k..][i].ledgerId != s[k..][j].ledgerId {
      assert s[k..][j] == s[k + j] && s[k..][i] == s[k + i];
    }
  }

  lemma StepClean(options: GetLedgerOptions, c: Cursor, reply: LedgerReply, conv: Conversions, stamp: string -> Instant)
    requires Clean(c.entries, stamp)
    requires RepliesStamped([reply], conv, stamp)
    ensures var step := Step(options, c, reply, conv, EntryLess);
      (step.Continue? ==> Clean(step.next.entries, stamp)) &&
      (step.Stop? ==> Clean(OutcomeEntries(step.outcome), stamp))
  {
    if reply.Decoded? && |reply.response.errors| == 0 && |reply.response.ledger| > 0 {
      var page := reply.response.ledger;
      forall i | 0 <= i < |page| ensures conv.toTime(page[i].1.time) == stamp(page[i].0) {
        assert [reply][0] == reply;
      }
      var merged := Merge(c.entries, page, conv, EntryLess);
      CorrectedMergeClean(c.entries, page, conv, stamp);
      PageStepCases(options, c, merged);
      if |merged| != c.lastCount && options.count > 0 && |merged| >= options.count {
        SliceClean(merged, |merged| - options.count, stamp);
      }
    }
  }

  lemma {:induction false} FetchClean(options: GetLedgerOptions, c: Cursor, replies: seq<LedgerReply>, conv: Conversions, stamp: string -> Instant)
    requires Clean(c.entries, stamp) && RepliesStamped(replies, conv, stamp)
    ensures Clean(OutcomeEntries(Fetch(options, c, replies, conv, EntryLess).0), stamp)
    decreases |replies|
  {
    if replies != [] {
      assert RepliesStamped([replies[0]], conv, stamp) by {
        forall k, i | 0 <= k < 1 && [replies[0]][k].Decoded? && 0 <= i < |[replies[0]][k].response.ledger|
          ensures conv.toTime([replies[0]][k].response.ledger[i].1.time) == stamp([replies[0]][k].response.ledger[i].0)
        {
          assert [replies[0]][k] == replies[0];
        }
      }
      StepClean(options, c, replies[0], conv, stamp);
      var step := Step(options, c, replies[0], conv, EntryLess);
      if step.Continue? {
        assert RepliesStamped(replies[1..], conv, stamp) by {
          forall k, i | 0 <= k < |replies[1..]| && replies[1..][k].Decoded? && 0 <= i < |replies[1..][k].response.ledger|
            ensures conv.toTime(replies[1..][k].response.ledger[i].1.time) == stamp(replies[1..][k].response.ledger[i].0)
          {
            assert replies[1..][k] == replies[k + 1];
          }
        }
        FetchClean(options, step.next, replies[1..], conv, stamp);
      }
    }
  }

  /** When the server reports each ledger entry with one time, whatever pages
      it returns, however they overlap, `Ledger` sorting by the corrected
      order hands back each ledger id at most once. */
  lemma CorrectedLedgerDistinct(options: GetLedgerOptions, replies: seq<LedgerReply>, conv: Conversions, stamp: string -> Instant)
    requires RepliesStamped(replies, conv, stamp)
    ensures DistinctIds(OutcomeEntries(Fetch(options, Initial, replies, conv, EntryLess).0))
  {
    FetchClean(options, Initial, replies, conv, stamp);
  }
}
