/** The Kraken ledger service: `RawLedger` posts one request to the Ledgers
    endpoint, and `Ledger` pages backwards through the ledger history,
    merging each page into what it holds until a page adds nothing.

    The server is an oracle: `replies[k]` is what the k-th request gets back.
    `Ledger` is proved to compute exactly `Fetch`, the step-by-step
    description of the loop; the properties of the pager are proved about
    `Fetch`.

    The order the merged entries are sorted by is a parameter `lt`: the
    service as written sorts by `ByTimestamp`, and `EntryLess`, which breaks
    ties by ledger id, is the correction that lets `dedupe` see every
    repeated entry. */
module KrakenLedger {
  import opened Results
  import opened GoValues
  import opened KrakenLedgerEntry
  import opened KrakenDedupe
  import Sorting
  import QueryString

  const RateLimitExceeded := "EAPI:Rate limit exceeded"

  datatype RawLedgerResponse = RawLedgerResponse(
    errors: seq<string>,
    count: int,
    /** The `ledger` object of the result, in the order map iteration visits it. */
    ledger: seq<(string, RawLedgerEntry)>)

  /** What one Ledgers request gets back. */
  datatype LedgerReply =
    | PostFailed(message: string)
    | Undecodable
    | Decoded(response: RawLedgerResponse)

  /** `RawLedger`: the response and the error it returns. A body that does not
      decode gives neither a response nor an error. */
  function RawLedger(reply: LedgerReply): (r: (Option<RawLedgerResponse>, Option<string>))
    ensures r.1.Some? <==> reply.PostFailed?
    ensures r.1.Some? ==> r.0.None? && r.1.value == reply.message
    ensures r.0.Some? <==> reply.Decoded?
    ensures r.0.Some? ==> r.0.value == reply.response
    ensures r.0.None? && r.1.None? <==> reply.Undecodable?
  {
    match reply
    case PostFailed(message) => (None, Some(message))
    case Undecodable => (None, None)
    case Decoded(response) => (Some(response), None)
  }

  datatype GetLedgerOptions = GetLedgerOptions(count: int, kind: string)

  /** The parameters of a request: `end` one second past the cursor when
      there is one, and `type` when the options name one. */
  function RequestParams(options: GetLedgerOptions, end: Option<Instant>): (p: QueryString.Params)
    ensures "end" in p <==> end.Some?
    ensures end.Some? ==> p["end"] == Int(Unix(end.value) + 1)
    ensures "type" in p <==> options.kind != ""
    ensures options.kind != "" ==> p["type"] == Str(options.kind)
    ensures forall k :: k in p ==> k == "end" || k == "type"
  {
    var withEnd: QueryString.Params := if end.Some? then map["end" := Int(Unix(end.value) + 1)] else map[];
    if options.kind != "" then withEnd["type" := Str(options.kind)] else withEnd
  }

  /** The loop state: the entries held, the cursor and the previous length. */
  datatype Cursor = Cursor(entries: seq<LedgerEntry>, end: Option<Instant>, lastCount: int)

  const Initial := Cursor([], None, 0)

  /** How `Ledger` ends. */
  datatype LedgerOutcome =
    /** `return entries, nil`. */
    | Done(entries: seq<LedgerEntry>)
    /** An error reported by the API: the entries gathered so far and the first message. */
    | ApiError(entries: seq<LedgerEntry>, message: string)
    /** `return nil, err` when the request itself failed. */
    | RequestFailed(message: string)
    /** The body did not decode, `RawLedger` returned a nil response and no
        error, and reading `response.Error` dereferences nil. */
    | NilResponse
    /** The replies given to the model ran out before the loop ended. */
    | Unanswered(entries: seq<LedgerEntry>)

  datatype StepResult = Continue(next: Cursor) | Stop(outcome: LedgerOutcome)

  /** The entries of a page, converted in iteration order. */
  function Convert(page: seq<(string, RawLedgerEntry)>, conv: Conversions): (r: seq<LedgerEntry>)
    ensures |r| == |page|
    ensures forall i :: 0 <= i < |page| ==> r[i] == NewLedgerEntryFromRaw(page[i].0, page[i].1, conv)
  {
    if page == [] then [] else Convert(page[..|page| - 1], conv) + [NewLedgerEntryFromRaw(page[|page| - 1].0, page[|page| - 1].1, conv)]
  }

  /** The held entries and a page, merged: appended, sorted by `lt`, then
      deduplicated. */
  function Merge(entries: seq<LedgerEntry>, page: seq<(string, RawLedgerEntry)>, conv: Conversions,
                 lt: (LedgerEntry, LedgerEntry) -> bool): (r: seq<LedgerEntry>)
    ensures |r| <= |entries| + |page|
    ensures page != [] ==> r != []
  {
    var all := entries + Convert(page, conv);
    var sorted := Sorting.SortBy(all, lt);
    assert |sorted| == |multiset(sorted)| == |multiset(all)| == |all|;
    Deduped(sorted)
  }

  /** One pass of the loop body on the reply to its request. */
  function Step(options: GetLedgerOptions, c: Cursor, reply: LedgerReply, conv: Conversions,
                lt: (LedgerEntry, LedgerEntry) -> bool): StepResult {
    var (response, err) := RawLedger(reply);
    if err.Some? then Stop(RequestFailed(err.value))
    else if response.None? then Stop(NilResponse)
    else
      var r := response.value;
      if |r.errors| > 0 then
        if r.errors[0] == RateLimitExceeded then Continue(c)
        else Stop(ApiError(c.entries, r.errors[0]))
      else if |r.ledger| == 0 then Stop(Done(c.entries))
      else PageStep(options, c, Merge(c.entries, r.ledger, conv, lt))
  }

  /** The end of the loop body, once a non-empty page has been merged into
      the held entries: stop when nothing was added, keep the newest
      `count` entries when there are enough, or move the cursor back to the
      oldest entry held. */
  function PageStep(options: GetLedgerOptions, c: Cursor, merged: seq<LedgerEntry>): StepResult
    requires merged != []
  {
    if |merged| == c.lastCount then Stop(Done(merged))
    else if options.count > 0 && |merged| >= options.count then
      Stop(Done(merged[|merged| - options.count..]))
    else Continue(Cursor(merged, Some(merged[0].timestamp), |merged|))
  }

  /** The three ways `PageStep` ends, one by one. */
  lemma PageStepCases(options: GetLedgerOptions, c: Cursor, merged: seq<LedgerEntry>)
    requires merged != []
    ensures |merged| == c.lastCount ==> PageStep(options, c, merged) == Stop(Done(merged))
    ensures |merged| != c.lastCount && options.count > 0 && |merged| >= options.count ==>
      PageStep(options, c, merged) == Stop(Done(merged[|merged| - options.count..]))
    ensures |merged| != c.lastCount && !(options.count > 0 && |merged| >= options.count) ==>
      PageStep(options, c, merged) == Continue(Cursor(merged, Some(merged[0].timestamp), |merged|))
  {
  }

  /** The outcome of running the loop from cursor `c` against `replies`, and
      the parameters of every request it sends. */
  function Fetch(options: GetLedgerOptions, c: Cursor, replies: seq<LedgerReply>, conv: Conversions,
                 lt: (LedgerEntry, LedgerEntry) -> bool): (r: (LedgerOutcome, seq<QueryString.Params>))
    ensures |r.1| <= |replies|
    ensures replies != [] ==> |r.1| > 0 && r.1[0] == RequestParams(options, c.end)
    decreases |replies|
  {
    if replies == [] then (Unanswered(c.entries), [])
    else
      var params := RequestParams(options, c.end);
      match Step(options, c, replies[0], conv, lt)
      case Stop(outcome) => (outcome, [params])
      case Continue(next) =>
        var (outcome, rest) := Fetch(options, next, replies[1..], conv, lt);
        (outcome, [params] + rest)
  }

  /** The part of the loop body that merges a page into the held entries:
      append every converted entry, sort, deduplicate. */
  method MergePage(held: seq<LedgerEntry>, page: seq<(string, RawLedgerEntry)>, conv: Conversions,
                   lt: (LedgerEntry, LedgerEntry) -> bool)
    returns (entries: seq<LedgerEntry>)
    ensures entries == Merge(held, page, conv, lt)
  {
    entries := held;
    for i := 0 to |page|
      invariant entries == held + Convert(page[..i], conv)
    {
      assert page[..i + 1][..i] == page[..i];
      var (ledgerId, v) := page[i];
      var entry := NewLedgerEntryFromRaw(ledgerId, v, conv);
      entries := entries + [entry];
    }
    assert page[..|page|] == page;
    entries := Sorting.SortBy(entries, lt);
    entries := Dedupe(entries);
  }

  /** The outcome of a run, with `requests` already sent before it. */
  function After(requests: seq<QueryString.Params>, r: (LedgerOutcome, seq<QueryString.Params>)): (LedgerOutcome, seq<QueryString.Params>) {
    (r.0, requests + r.1)
  }

  /** Running from the `n`-th reply: the step on that reply either stops the
      run, after one request, or continues it from the next cursor. */
  lemma FetchUnfold(options: GetLedgerOptions, c: Cursor, replies: seq<LedgerReply>, n: int, conv: Conversions,
                    lt: (LedgerEntry, LedgerEntry) -> bool)
    requires 0 <= n < |replies|
    ensures var step := Step(options, c, replies[n], conv, lt);
      Fetch(options, c, replies[n..], conv, lt) ==
        if step.Stop? then (step.outcome, [RequestParams(options, c.end)])
        else After([RequestParams(options, c.end)], Fetch(options, step.next, replies[n + 1..], conv, lt))
  {
    assert replies[n..][0] == replies[n] && replies[n..][1..] == replies[n + 1..];
  }

  /** One step of the loop, seen from the whole run: what remains to be
      explained after sending `params`. */
  lemma AfterStep(requests: seq<QueryString.Params>, params: QueryString.Params, step: StepResult,
                  here: (LedgerOutcome, seq<QueryString.Params>), rest: (LedgerOutcome, seq<QueryString.Params>))
    requires step.Stop? ==> here == (step.outcome, [params])
    requires step.Continue? ==> here == After([params], rest)
    ensures step.Stop? ==> After(requests, here) == (step.outcome, requests + [params])
    ensures step.Continue? ==> After(requests, here) == After(requests + [params], rest)
  {
    assert requests + ([params] + rest.1) == (requests + [params]) + rest.1;
  }

  /** `Ledger`, sorting each merge by `lt`: `ByTimestamp` as written. */
  method Ledger(options: GetLedgerOptions, replies: seq<LedgerReply>, conv: Conversions,
                lt: (LedgerEntry, LedgerEntry) -> bool)
    returns (outcome: LedgerOutcome, requests: seq<QueryString.Params>)
    ensures (outcome, requests) == Fetch(options, Initial, replies, conv, lt)
  {
    var entries: seq<LedgerEntry> := [];
    var end: Option<Instant> := None;
    var lastCount := 0;
    requests := [];
    var n := 0;
    assert replies[n..] == replies && Cursor(entries, end, lastCount) == Initial;
    assert [] + Fetch(options, Initial, replies, conv, lt).1 == Fetch(options, Initial, replies, conv, lt).1;
    while true
      invariant 0 <= n <= |replies|
      invariant Fetch(options, Initial, replies, conv, lt) ==
        After(requests, Fetch(options, Cursor(entries, end, lastCount), replies[n..], conv, lt))
      decreases |replies| - n
    {
      var params: QueryString.Params := map[];
      if end.Some? {
        params := params["end" := Int(Unix(end.value) + 1)];
      }
      if options.kind != "" {
        params := params["type" := Str(options.kind)];
      }
      assert params == RequestParams(options, end);

      if n == |replies| {
        assert replies[n..] == [];
        assert requests + [] == requests;
        outcome := Unanswered(entries);
        return;
      }
      ghost var c := Cursor(entries, end, lastCount);
      ghost var step := Step(options, c, replies[n], conv, lt);
      ghost var rest := if step.Continue? then Fetch(options, step.next, replies[n + 1..], conv, lt) else (NilResponse, []);
      FetchUnfold(options, c, replies, n, conv, lt);
      AfterStep(requests, params, step, Fetch(options, c, replies[n..], conv, lt), rest);
      requests := requests + [params];
      var reply := replies[n];
      n := n + 1;

      var (response, err) := RawLedger(reply);
      if err.Some? {
        assert step == Stop(RequestFailed(err.value));
        outcome := RequestFailed(err.value);
        return;
      }
      if response.None? {
        assert step == Stop(NilResponse);
        outcome := NilResponse;
        return;
      }
      var result := response.value;
      if |result.errors| > 0 {
        if result.errors[0] == RateLimitExceeded {
          assert step == Continue(c);
          continue;
        }
        assert step == Stop(ApiError(entries, result.errors[0]));
        outcome := ApiError(entries, result.errors[0]);
        return;
      }
      if |result.ledger| == 0 {
        assert step == Stop(Done(entries));
        outcome := Done(entries);
        return;
      }

      entries := MergePage(entries, result.ledger, conv, lt);
      assert step == PageStep(options, c, entries);
      PageStepCases(options, c, entries);
      if |entries| == lastCount {
        assert step == Stop(Done(entries));
        outcome := Done(entries);
        return;
      }
      lastCount := |entries|;
      if options.count > 0 && |entries| >= options.count {
        assert step == Stop(Done(entries[|entries| - options.count..]));
        entries := entries[|entries| - options.count..];
        outcome := Done(entries);
        return;
      }
      end := Some(entries[0].timestamp);
      assert step == Continue(Cursor(entries, end, lastCount));
    }
  }
}
