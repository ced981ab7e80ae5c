/** The pure parts of the `kraken get-trades` command: pair-name normalisation
    through a lookup table with a "USD" suffix rule, and the timestamp order
    the trades are printed in. */
module KrakenTrades {
  import opened GoStrings
  import opened GoValues
  import Sorting

  const NormalizedPairs: map<string, string> := map[
    "XXBTZUSD" := "BTC/USD",
    "XETHZUSD" := "ETH/USD",
    "XLTCZUSD" := "LTC/USD",
    "XXMRZUSD" := "XMR/USD",
    "XETCZUSD" := "ETC/USD"
  ]

  lemma UsdBorderless()
    ensures Borderless("USD")
  {
    assert "USD"[..1][0] != "USD"[2..][0];
    assert "USD"[..2][0] != "USD"[1..][0];
  }

  /** `normalizePair`: the table wins; otherwise a pair ending in "USD" has
      every "USD" replaced by "/USD"; any other pair is returned as is. */
  function NormalizePair(pair: string): (r: string)
    ensures pair in NormalizedPairs ==> r == NormalizedPairs[pair]
    ensures pair !in NormalizedPairs && HasSuffix(pair, "USD") ==> HasSuffix(r, "/USD")
    ensures pair !in NormalizedPairs && !HasSuffix(pair, "USD") ==> r == pair
  {
    if pair in NormalizedPairs then NormalizedPairs[pair]
    else if HasSuffix(pair, "USD") then
      UsdBorderless();
      ReplaceKeepsSuffix(pair, "USD", "/USD");
      ReplaceAll(pair, "USD", "/USD")
    else pair
  }

  lemma NormalizePairExamples()
    ensures NormalizePair("XXBTZUSD") == "BTC/USD"
    ensures NormalizePair("BCHUSD") == "BCH/USD"
    ensures NormalizePair("XXBTZEUR") == "XXBTZEUR"
  {
    assert "BCHUSD" !in NormalizedPairs;
    assert "BCHUSD"[3..] == "USD" && "BCHUSD"[..3] == "BCH";
    assert "BCHUSD"[1..][..3][0] != 'U' && "BCHUSD"[2..][..3][0] != 'U';
    assert ReplaceAll("BCHUSD", "USD", "/USD") == "BCH/USD";
    assert "XXBTZEUR"[5..] != "USD";
  }

  /** A trade as the command prints it. */
  datatype Trade = Trade(timestamp: Instant, kind: string, pair: string, cost: string, fee: string, volume: string)

  /** The `sort.Slice` comparator: earlier first, or later first when `reverse` is set. */
  function TradeLess(reverse: bool): (Trade, Trade) -> bool {
    (a: Trade, b: Trade) => if reverse then Before(b.timestamp, a.timestamp) else Before(a.timestamp, b.timestamp)
  }

  lemma TradeLessIsStrict(reverse: bool)
    ensures Sorting.StrictOrder(TradeLess(reverse))
  {
  }

  /** The trades in printing order. */
  function SortTrades(trades: seq<Trade>, reverse: bool): (r: seq<Trade>)
    ensures multiset(r) == multiset(trades)
  {
    Sorting.SortBy(trades, TradeLess(reverse))
  }

  /** Sorted trades run from the earliest to the latest, or from the latest to
      the earliest with `reverse`, and are the same trades. */
  lemma SortTradesOrder(trades: seq<Trade>, reverse: bool)
    ensures var r := SortTrades(trades, reverse);
      multiset(r) == multiset(trades) &&
      forall i, j :: 0 <= i < j < |r| ==>
        if reverse then r[j].timestamp.unixNanos <= r[i].timestamp.unixNanos
        else r[i].timestamp.unixNanos <= r[j].timestamp.unixNanos
  {
    Sorting.SortBySorted(trades, TradeLess(reverse));
  }
}
