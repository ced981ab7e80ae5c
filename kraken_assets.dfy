/** Kraken's asset and pair name normalisation: each function runs a fixed
    substitution table over a name, replacing every occurrence of a rule's
    key with `strings.Replace(name, key, value, -1)` and feeding the result
    to the next rule. */
module KrakenAssets {
  import opened GoStrings

  /** An ordered list of (key, value) rules. */
  type SubsTable = seq<(string, string)>

  predicate WellFormed(table: SubsTable) {
    forall i :: 0 <= i < |table| ==> |table[i].0| > 0
  }

  const PairSubsTable: SubsTable := [
    ("XXBTZ", "BTC/"),
    ("XETHZ", "ETH/"),
    ("XLTCZ", "LTC/"),
    ("XXMRZ", "XMR/"),
    ("XETCZ", "ETC/"),
    ("BCH", "BCH/")
  ]

  const AssetSubsTable: SubsTable := [
    ("XXBT", "BTC"),
    ("XLTC", "LTC"),
    ("XXMR", "XMR"),
    ("XETH", "ETH"),
    ("XZEC", "ZEC"),
    ("ZUSD", "USD")
  ]

  /** The rules of `table` applied in order, each to the previous one's output. */
  function Substitute(table: SubsTable, s: string): string
    requires WellFormed(table)
  {
    if table == [] then s else Substitute(table[1..], ReplaceAll(s, table[0].0, table[0].1))
  }

  /** `GetNormalizePairName`. */
  method GetNormalizePairName(pair: string) returns (r: string)
    ensures r == Substitute(PairSubsTable, pair)
  {
    r := pair;
    for i := 0 to |PairSubsTable|
      invariant Substitute(PairSubsTable[i..], r) == Substitute(PairSubsTable, pair)
    {
      assert PairSubsTable[i..][1..] == PairSubsTable[i + 1..];
      r := ReplaceAll(r, PairSubsTable[i].0, PairSubsTable[i].1);
    }
  }

  /** `NormalizeAssetName`. */
  method NormalizeAssetName(name: string) returns (r: string)
    ensures r == Substitute(AssetSubsTable, name)
  {
    r := name;
    for i := 0 to |AssetSubsTable|
      invariant Substitute(AssetSubsTable[i..], r) == Substitute(AssetSubsTable, name)
    {
      assert AssetSubsTable[i..][1..] == AssetSubsTable[i + 1..];
      r := ReplaceAll(r, AssetSubsTable[i].0, AssetSubsTable[i].1);
    }
  }

  /** A name that contains no key of the table comes out unchanged. */
  lemma {:induction false} SubstituteAbsent(table: SubsTable, s: string)
    requires WellFormed(table)
    requires forall i :: 0 <= i < |table| ==> !Contains(s, table[i].0)
    ensures Substitute(table, s) == s
  {
    if table != [] {
      ReplaceAbsent(s, table[0].0, table[0].1);
      SubstituteAbsent(table[1..], s);
    }
  }

  /** A name that has a character which every key of the table contains but
      the name lacks comes out unchanged. */
  lemma SubstituteAbsentChar(table: SubsTable, s: string, c: char)
    requires WellFormed(table)
    requires c !in s && forall i :: 0 <= i < |table| ==> c in table[i].0
    ensures Substitute(table, s) == s
  {
    forall i | 0 <= i < |table| ensures !Contains(s, table[i].0) {
      AbsentChar(s, table[i].0, c);
    }
    SubstituteAbsent(table, s);
  }

  /** Every key of `table` has a character that `s` lacks, so `s` is left alone. */
  lemma SubstituteMissingChars(table: SubsTable, s: string, witnesses: seq<char>)
    requires WellFormed(table) && |witnesses| == |table|
    requires forall i :: 0 <= i < |table| ==> witnesses[i] in table[i].0 && witnesses[i] !in s
    ensures Substitute(table, s) == s
  {
    forall i | 0 <= i < |table| ensures !Contains(s, table[i].0) {
      AbsentChar(s, table[i].0, witnesses[i]);
    }
    SubstituteAbsent(table, s);
  }

  /** `GetNormalizePairName("XXBTZUSD")` is "BTC/USD": the first rule fires and no
      later key occurs in its output. */
  lemma PairExampleBtc()
    ensures Substitute(PairSubsTable, "XXBTZUSD") == "BTC/USD"
  {
    assert "XXBTZUSD"[..5] == "XXBTZ" && "XXBTZUSD"[5..] == "USD";
    assert ReplaceAll("XXBTZUSD", "XXBTZ", "BTC/") == "BTC/USD";
    SubstituteMissingChars(PairSubsTable[1..], "BTC/USD", "ZZZZH");
  }

  /** `GetNormalizePairName("BCHUSD")` is "BCH/USD": only the last rule fires. */
  lemma PairExampleBch()
    ensures Substitute(PairSubsTable, "BCHUSD") == "BCH/USD"
  {
    SubstituteMissingChars(PairSubsTable[..5], "BCHUSD", "ZZZZZ");
    assert PairSubsTable[..5] + PairSubsTable[5..] == PairSubsTable;
    SubstituteConcat(PairSubsTable[..5], PairSubsTable[5..], "BCHUSD");
    ReplaceBch();
  }

  lemma ReplaceBch()
    ensures ReplaceAll("BCHUSD", "BCH", "BCH/") == "BCH/USD"
  {
    assert "BCHUSD"[..3] == "BCH" && "BCHUSD"[3..] == "USD";
    ReplaceAbsentChar("USD", "BCH", "BCH/", 'B');
  }

  /** Pair normalisation is not idempotent: the "BCH" rule fires again on its
      own output, so "BCH/USD" becomes "BCH//USD". */
  lemma PairNotIdempotent()
    ensures Substitute(PairSubsTable, "BCH/USD") == "BCH//USD"
    ensures Substitute(PairSubsTable, Substitute(PairSubsTable, "BCHUSD")) != Substitute(PairSubsTable, "BCHUSD")
  {
    PairExampleBch();
    PairExampleBchSlash();
    assert "BCH//USD" != "BCH/USD";
  }

  lemma PairExampleBchSlash()
    ensures Substitute(PairSubsTable, "BCH/USD") == "BCH//USD"
  {
    SubstituteMissingChars(PairSubsTable[..5], "BCH/USD", "ZZZZZ");
    assert PairSubsTable[..5] + PairSubsTable[5..] == PairSubsTable;
    SubstituteConcat(PairSubsTable[..5], PairSubsTable[5..], "BCH/USD");
    ReplaceBchAgain();
  }

  lemma ReplaceBchAgain()
    ensures ReplaceAll("BCH/USD", "BCH", "BCH/") == "BCH//USD"
  {
    assert "BCH/USD"[..3] == "BCH" && "BCH/USD"[3..] == "/USD";
    ReplaceAbsentChar("/USD", "BCH", "BCH/", 'B');
  }

  /** Running two tables one after the other is running their concatenation. */
  lemma {:induction false} SubstituteConcat(first: SubsTable, second: SubsTable, s: string)
    requires WellFormed(first) && WellFormed(second)
    ensures WellFormed(first + second)
    ensures Substitute(first + second, s) == Substitute(second, Substitute(first, s))
  {
    if first != [] {
      assert (first + second)[1..] == first[1..] + second;
      SubstituteConcat(first[1..], second, ReplaceAll(s, first[0].0, first[0].1));
    } else {
      assert first + second == second;
    }
  }

  /** `NormalizeAssetName` maps "XXBT" to "BTC" and "ZUSD" to "USD". */
  lemma AssetExamples()
    ensures Substitute(AssetSubsTable, "XXBT") == "BTC"
    ensures Substitute(AssetSubsTable, "ZUSD") == "USD"
  {
    AssetExampleXxbt();
    AssetExampleZusd();
  }

  lemma AssetExampleXxbt()
    ensures Substitute(AssetSubsTable, "XXBT") == "BTC"
  {
    assert "XXBT"[..4] == "XXBT" && "XXBT"[4..] == "";
    assert ReplaceAll("XXBT", "XXBT", "BTC") == "BTC";
    SubstituteMissingChars(AssetSubsTable[1..], "BTC", "XXXXZ");
  }

  lemma AssetExampleZusd()
    ensures Substitute(AssetSubsTable, "ZUSD") == "USD"
  {
    SubstituteMissingChars(AssetSubsTable[..5], "ZUSD", "XXXXX");
    assert AssetSubsTable[..5] + AssetSubsTable[5..] == AssetSubsTable;
    SubstituteConcat(AssetSubsTable[..5], AssetSubsTable[5..], "ZUSD");
    assert "ZUSD"[..4] == "ZUSD" && "ZUSD"[4..] == "";
    assert ReplaceAll("ZUSD", "ZUSD", "USD") == "USD";
  }

  /** Matching is leftmost: in "XXXBT" the key "XXBT" is found at index 1, so the
      result is "XBTC". */
  lemma AssetExampleLeftmost()
    ensures Substitute(AssetSubsTable, "XXXBT") == "XBTC"
  {
    assert "XXXBT"[..4] == "XXXB" && "XXXBT"[1..] == "XXBT";
    assert "XXBT"[..4] == "XXBT" && "XXBT"[4..] == "";
    assert ReplaceAll("XXBT", "XXBT", "BTC") == "BTC";
    assert ReplaceAll("XXXBT", "XXBT", "BTC") == "XBTC";
    SubstituteMissingChars(AssetSubsTable[1..], "XBTC", "LMEZZ");
  }

  /** The empty name, like any name containing no key, is returned unchanged. */
  lemma AssetEmpty()
    ensures Substitute(AssetSubsTable, "") == ""
  {
    SubstituteMissingChars(AssetSubsTable, "", "XXXXXZ");
  }
}
