/** Kraken ledger entries: the raw form the Ledgers endpoint returns, the
    converted form the ledger service hands out, and the orders entries are
    sorted by. */
module KrakenLedgerEntry {
  import opened GoValues
  import StringOrder
  import Sorting
  import KrakenAssets

  datatype LedgerEntry = LedgerEntry(
    ledgerId: string,
    referenceId: string,
    timestamp: Instant,
    kind: string,
    assetClass: string,
    asset: string,
    amount: Float64,
    fee: Float64,
    balance: Float64)

  datatype RawLedgerEntry = RawLedgerEntry(
    refId: string,
    time: Float64,
    kind: string,
    assetClass: string,
    asset: string,
    amount: string,
    fee: string,
    balance: string)

  /** The conversions the service calls but that are not modelled:
      `util.Float64ToTime` and `strconv.ParseFloat`. */
  datatype Conversions = Conversions(toTime: Float64 -> Instant, parseFloat: string -> ParseResult)

  /** `NewLedgerEntryFromRaw`: copies the identifying fields, normalises the
      asset name, converts the time, and parses the three amounts ignoring
      parse errors. */
  function NewLedgerEntryFromRaw(id: string, raw: RawLedgerEntry, conv: Conversions): (e: LedgerEntry)
    ensures e.ledgerId == id && e.referenceId == raw.refId
    ensures e.kind == raw.kind && e.assetClass == raw.assetClass
    ensures e.asset == KrakenAssets.Substitute(KrakenAssets.AssetSubsTable, raw.asset)
    ensures e.timestamp == conv.toTime(raw.time)
  {
    LedgerEntry(
      id, raw.refId, conv.toTime(raw.time), raw.kind, raw.assetClass,
      KrakenAssets.Substitute(KrakenAssets.AssetSubsTable, raw.asset),
      conv.parseFloat(raw.amount).value,
      conv.parseFloat(raw.fee).value,
      conv.parseFloat(raw.balance).value)
  }

  /** A raw entry whose asset code is "XXBT" becomes an entry for "BTC". */
  lemma ConvertedAssetExample(id: string, raw: RawLedgerEntry, conv: Conversions)
    requires raw.asset == "XXBT"
    ensures NewLedgerEntryFromRaw(id, raw, conv).asset == "BTC"
  {
    KrakenAssets.AssetExamples();
  }

  /** The order `Ledger` sorts by as written: timestamp only. */
  predicate ByTimestamp(a: LedgerEntry, b: LedgerEntry) {
    Before(a.timestamp, b.timestamp)
  }

  /** The order `Ledger` needs for `dedupe` to see every duplicate: timestamp,
      then ledger id. */
  predicate EntryLess(a: LedgerEntry, b: LedgerEntry) {
    Before(a.timestamp, b.timestamp) ||
    (a.timestamp == b.timestamp && StringOrder.Less(a.ledgerId, b.ledgerId))
  }

  /** The orders a ledger may be sorted by: strict orders that put an earlier
      entry before a later one. `ByTimestamp` is the one `Ledger` uses;
      `EntryLess` also orders entries that share a timestamp. */
  ghost predicate LedgerOrder(lt: (LedgerEntry, LedgerEntry) -> bool) {
    Sorting.StrictOrder(lt) &&
    forall a: LedgerEntry, b: LedgerEntry :: Before(a.timestamp, b.timestamp) ==> lt(a, b)
  }

  lemma EntryLessIsStrict()
    ensures Sorting.StrictOrder(EntryLess)
  {
    forall a ensures !EntryLess(a, a) {
      StringOrder.Irreflexive(a.ledgerId);
    }
    forall a, b, c | EntryLess(a, b) && EntryLess(b, c) ensures EntryLess(a, c) {
      if a.timestamp == b.timestamp == c.timestamp {
        StringOrder.Transitive(a.ledgerId, b.ledgerId, c.ledgerId);
      }
    }
  }

  lemma ByTimestampIsLedgerOrder()
    ensures LedgerOrder(ByTimestamp)
  {
  }

  lemma EntryLessIsLedgerOrder()
    ensures LedgerOrder(EntryLess)
  {
    EntryLessIsStrict();
  }

  /** Entries sorted by a ledger order run in ascending timestamp order. */
  lemma SortedAscending(s: seq<LedgerEntry>, lt: (LedgerEntry, LedgerEntry) -> bool)
    requires LedgerOrder(lt) && Sorting.SortedBy(s, lt)
    ensures forall i, j :: 0 <= i < j < |s| ==> s[i].timestamp.unixNanos <= s[j].timestamp.unixNanos
  {
    forall i, j | 0 <= i < j < |s| ensures s[i].timestamp.unixNanos <= s[j].timestamp.unixNanos {
      assert !lt(s[j], s[i]);
    }
  }

  /** No two entries share a ledger id. */
  predicate DistinctIds(s: seq<LedgerEntry>) {
    forall i, j :: 0 <= i < j < |s| ==> s[i].ledgerId != s[j].ledgerId
  }

  /** Entries that share a ledger id share a timestamp: the server reports
      each ledger entry with one time. */
  ghost predicate ConsistentIds(s: seq<LedgerEntry>) {
    forall x, y :: x in s && y in s && x.ledgerId == y.ledgerId ==> x.timestamp == y.timestamp
  }
}
