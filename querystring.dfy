/** The query-string builder that the Binance, Kraken, QuadrigaCX and KuCoin
    clients each carry a copy of: the keys of the parameter map are sorted
    byte-wise and `key=value` pairs are joined with `&`, with nothing escaped. */
module QueryString {
  import opened Results
  import opened GoStrings
  import opened GoValues
  import StringOrder
  import Sorting

  type Params = map<string, Value>

  /** A parameter map held by reference, as Go maps are: a callee that
      writes to it changes its caller's map. */
  class ParamMap {
    var entries: Params

    constructor(entries: Params)
      ensures this.entries == entries
    {
      this.entries := entries;
    }
  }

  /** `sort.Strings` order is total. */
  lemma LessIsTotal()
    ensures Sorting.TotalOrder(StringOrder.Less)
  {
    forall a ensures !StringOrder.Less(a, a) {
      StringOrder.Irreflexive(a);
    }
    forall a, b, c | StringOrder.Less(a, b) && StringOrder.Less(b, c)
      ensures StringOrder.Less(a, c)
    {
      StringOrder.Transitive(a, b, c);
    }
    forall a, b ensures a == b || StringOrder.Less(a, b) || StringOrder.Less(b, a) {
      StringOrder.Total(a, b);
    }
  }

  /** Some listing of a set, in no particular order. */
  ghost function Listing(s: set<string>): (r: seq<string>)
    ensures multiset(r) == multiset(s)
  {
    if s == {} then []
    else
      var x :| x in s;
      assert multiset(s) == multiset(s - {x}) + multiset{x};
      [x] + Listing(s - {x})
  }

  /** The keys of `params` in `sort.Strings` order. */
  ghost function SortedKeys(params: Params): (r: seq<string>)
    ensures multiset(r) == multiset(params.Keys)
    ensures forall i :: 0 <= i < |r| ==> r[i] in params
  {
    var r := Sorting.SortBy(Listing(params.Keys), StringOrder.Less);
    assert forall i :: 0 <= i < |r| ==> r[i] in multiset(r);
    r
  }

  /** However the keys were gathered, sorting them gives `SortedKeys`. */
  lemma SortedKeysCanonical(gathered: seq<string>, params: Params)
    requires multiset(gathered) == multiset(params.Keys)
    ensures Sorting.SortBy(gathered, StringOrder.Less) == SortedKeys(params)
  {
    LessIsTotal();
    Sorting.SortByCanonical(gathered, Listing(params.Keys), StringOrder.Less);
  }

  /** The `key=value` pair the builder writes for `key`. */
  function Pair(key: string, params: Params): string
    requires key in params
  {
    key + "=" + Format(params[key])
  }

  function Pairs(keys: seq<string>, params: Params): (r: seq<string>)
    requires forall i :: 0 <= i < |keys| ==> keys[i] in params
    ensures |r| == |keys|
    ensures forall i :: 0 <= i < |keys| ==> r[i] == Pair(keys[i], params)
  {
    if keys == [] then [] else Pairs(keys[..|keys| - 1], params) + [Pair(keys[|keys| - 1], params)]
  }

  /** The query string of `params`. */
  ghost function Query(params: Params): string {
    Join(Pairs(SortedKeys(params), params), "&")
  }

  /** The closure at the head of `BuildQueryString`: the keys of the map, gathered
      in iteration order (any order), then sorted with `sort.Strings`. */
  method SortedKeyList(params: Params) returns (keys: seq<string>)
    ensures keys == SortedKeys(params)
  {
    var gathered: seq<string> := [];
    var rest := params.Keys;
    while rest != {}
      invariant rest <= params.Keys
      invariant multiset(gathered) + multiset(rest) == multiset(params.Keys)
      decreases |rest|
    {
      var key :| key in rest;
      gathered := gathered + [key];
      assert multiset(rest) == multiset(rest - {key}) + multiset{key};
      rest := rest - {key};
    }
    keys := Sorting.SortBy(gathered, StringOrder.Less);
    SortedKeysCanonical(gathered, params);
  }

  /** `BuildQueryString`: appends `key=value` for each sorted key, writing `&`
      before every pair but the first. */
  method BuildQueryString(params: Params) returns (q: string)
    ensures q == Query(params)
  {
    var keys := SortedKeyList(params);
    q := "";
    var i := 0;
    while i < |keys|
      invariant 0 <= i <= |keys|
      invariant q == Join(Pairs(keys[..i], params), "&")
      invariant q == "" <==> i == 0
    {
      PairsStep(keys, i, params);
      if q != "" {
        q := q + "&";
      }
      q := q + Pair(keys[i], params);
      i := i + 1;
    }
    assert keys[..i] == keys;
  }

  /** One more key adds its pair, after a `&` unless it is the first. */
  lemma PairsStep(keys: seq<string>, i: int, params: Params)
    requires 0 <= i < |keys| && forall j :: 0 <= j < |keys| ==> keys[j] in params
    ensures Join(Pairs(keys[..i + 1], params), "&") ==
      if i == 0 then Pair(keys[0], params) else Join(Pairs(keys[..i], params), "&") + "&" + Pair(keys[i], params)
    ensures |Pair(keys[i], params)| > 0
  {
    assert keys[..i + 1][..i] == keys[..i];
    if i > 0 {
      JoinSnoc(Pairs(keys[..i], params), Pair(keys[i], params), "&");
    }
  }

  /** The query string is empty exactly when there are no parameters. */
  lemma QueryEmpty(params: Params)
    ensures Query(params) == "" <==> |params| == 0
  {
    var keys := SortedKeys(params);
    assert |keys| == |multiset(keys)| == |multiset(params.Keys)| == |params.Keys|;
    if |keys| > 0 {
      var pairs := Pairs(keys, params);
      JoinStartsWith(pairs, "&");
      assert |pairs[0]| > 0;
    }
  }

  lemma JoinStartsWith(parts: seq<string>, sep: string)
    requires |parts| > 0
    ensures HasPrefix(Join(parts, sep), parts[0])
  {
    if |parts| > 1 {
      assert Join(parts, sep) == parts[0] + (sep + Join(parts[1..], sep));
    }
  }

  /** A key that occurs twice in a sequence occurs at least twice in its multiset. */
  lemma RepeatCounts(r: seq<string>, i: int, j: int)
    requires 0 <= i < j < |r|
    ensures r[i] == r[j] ==> multiset(r)[r[i]] >= 2
  {
    assert r == r[..j] + r[j..];
    assert r[i] == r[..j][i] && r[j] == r[j..][0];
    assert multiset(r) == multiset(r[..j]) + multiset(r[j..]);
  }

  /** The keys come out in strictly ascending `sort.Strings` order, each key of
      the map exactly once. */
  lemma SortedKeysAscending(params: Params)
    ensures var keys := SortedKeys(params);
      (forall k :: k in params <==> k in keys) && |keys| == |params| &&
      forall i, j :: 0 <= i < j < |keys| ==> StringOrder.Less(keys[i], keys[j])
  {
    var keys := SortedKeys(params);
    assert |keys| == |multiset(keys)| == |multiset(params.Keys)| == |params.Keys|;
    forall k ensures k in params <==> k in keys {
      assert k in params <==> k in multiset(params.Keys);
    }
    LessIsTotal();
    Sorting.SortBySorted(Listing(params.Keys), StringOrder.Less);
    forall i, j | 0 <= i < j < |keys| ensures StringOrder.Less(keys[i], keys[j]) {
      StringOrder.Total(keys[i], keys[j]);
      RepeatCounts(keys, i, j);
    }
  }

  /** No key contains `&` or `=`, and no value prints with `&`. */
  predicate Unambiguous(params: Params) {
    forall k :: k in params ==> '&' !in k && '=' !in k && '&' !in Format(params[k])
  }

  /** Reads a query string back into its `(key, value)` pairs, in order: split on
      `&`, then each piece at its first `=`. */
  function ParseQuery(q: string): seq<(string, string)> {
    if q == "" then [] else CutEach(Split(q, '&'))
  }

  function CutEach(pieces: seq<string>): (r: seq<(string, string)>)
    ensures |r| == |pieces|
    ensures forall i :: 0 <= i < |pieces| ==> r[i] == Cut(pieces[i], '=')
  {
    if pieces == [] then [] else [Cut(pieces[0], '=')] + CutEach(pieces[1..])
  }

  /** The `(key, value)` pairs of `params` in sorted key order, values as `%v` prints them. */
  ghost function Entries(params: Params): (r: seq<(string, string)>)
    ensures |r| == |SortedKeys(params)|
  {
    var keys := SortedKeys(params);
    seq(|keys|, i requires 0 <= i < |keys| => (keys[i], Format(params[keys[i]])))
  }

  /** Without `&` and `=` inside keys or `&` inside values, the query string can
      be split back into exactly the sorted list of pairs. */
  lemma QueryRoundTrip(params: Params)
    requires Unambiguous(params)
    ensures ParseQuery(Query(params)) == Entries(params)
  {
    QueryEmpty(params);
    var keys := SortedKeys(params);
    var pairs := Pairs(keys, params);
    if |params| > 0 {
      PairsAmpersandFree(params);
      SplitJoin(pairs, '&');
      PairsCut(params);
    } else {
      assert |keys| == |multiset(keys)| == 0;
    }
  }

  /** No pair of an unambiguous map holds a `&`. */
  lemma PairsAmpersandFree(params: Params)
    requires Unambiguous(params)
    ensures var pairs := Pairs(SortedKeys(params), params);
      forall i :: 0 <= i < |pairs| ==> '&' !in pairs[i]
  {
    var keys := SortedKeys(params);
    var pairs := Pairs(keys, params);
    forall i | 0 <= i < |pairs| ensures '&' !in pairs[i] {
      assert pairs[i] == keys[i] + "=" + Format(params[keys[i]]);
    }
  }

  /** Each pair cuts at its first `=` into its key and value. */
  lemma PairsCut(params: Params)
    requires Unambiguous(params)
    ensures var pairs := Pairs(SortedKeys(params), params);
      CutEach(pairs) == Entries(params)
  {
    var keys := SortedKeys(params);
    var pairs := Pairs(keys, params);
    forall i | 0 <= i < |pairs| ensures Cut(pairs[i], '=') == Entries(params)[i] {
      assert pairs[i] == keys[i] + ['='] + Format(params[keys[i]]);
      CutAtFirst(keys[i], Format(params[keys[i]]), '=');
    }
  }

  /** `n` parameters are separated by exactly `n - 1` ampersands. */
  lemma QuerySeparators(params: Params)
    requires Unambiguous(params) && |params| > 0
    ensures CountChar(Query(params), '&') == |params| - 1
  {
    var keys := SortedKeys(params);
    var pairs := Pairs(keys, params);
    assert |keys| == |multiset(keys)| == |multiset(params.Keys)| == |params.Keys|;
    PairsAmpersandFree(params);
    JoinSeparatorCount(pairs, '&');
  }

  /** The URL a `Get` requests: `?` and the query string are appended when
      there is a parameter map and its query string is not empty. */
  ghost function WithQuery(base: string, params: Option<Params>): string {
    if params.Some? && Query(params.value) != "" then base + "?" + Query(params.value) else base
  }

  /** The query string can be read back from the URL: it is what follows the
      first `?`, and a `?` appears exactly when the map has entries. */
  lemma WithQueryCut(base: string, params: Option<Params>)
    requires '?' !in base
    ensures Cut(WithQuery(base, params), '?') == (base, if params.Some? then Query(params.value) else "")
    ensures '?' in WithQuery(base, params) <==> params.Some? && |params.value| > 0
  {
    if params.Some? {
      QueryEmpty(params.value);
    }
    if params.Some? && Query(params.value) != "" {
      CutAtFirst(base, Query(params.value), '?');
      assert base + "?" + Query(params.value) == base + ['?'] + Query(params.value);
      assert (base + "?" + Query(params.value))[|base|] == '?';
    } else {
      CutAbsent(base, '?');
    }
  }

  /** A map with one entry gives the one pair `key=value`. */
  lemma QuerySingle(key: string, v: Value)
    ensures Query(map[key := v]) == key + "=" + Format(v)
  {
    var params := map[key := v];
    var keys := SortedKeys(params);
    assert params.Keys == {key};
    assert multiset(keys) == multiset{key};
    assert |keys| == |multiset(keys)| == 1;
    assert keys[0] in multiset(keys);
    assert keys == [key];
  }

  /** Every entry of the map is among the pairs the query string reads back as. */
  lemma EntriesMember(params: Params, key: string)
    requires key in params
    ensures (key, Format(params[key])) in Entries(params)
  {
    SortedKeysAscending(params);
    var keys := SortedKeys(params);
    var i :| 0 <= i < |keys| && keys[i] == key;
    assert Entries(params)[i] == (key, Format(params[key]));
  }

  /** Two ascending keys drawn from `{k1, k2}` with `k1 < k2` are `[k1, k2]`. */
  lemma TwoKeysOrdered(keys: seq<string>, k1: string, k2: string)
    requires |keys| == 2 && StringOrder.Less(keys[0], keys[1]) && StringOrder.Less(k1, k2)
    requires (keys[0] == k1 || keys[0] == k2) && (keys[1] == k1 || keys[1] == k2)
    ensures keys == [k1, k2]
  {
    StringOrder.Irreflexive(k1);
    StringOrder.Irreflexive(k2);
    StringOrder.Asymmetric(k1, k2);
  }

  /** The sorted keys of a two-entry map. */
  lemma TwoKeyMap(k1: string, v1: Value, k2: string, v2: Value)
    requires k1 != k2
    ensures map[k1 := v1, k2 := v2].Keys == {k1, k2} && |map[k1 := v1, k2 := v2]| == 2
  {
    assert map[k1 := v1, k2 := v2].Keys == {k1, k2};
  }

  /** The sorted keys of a two-entry map are its two keys, ascending. */
  lemma SortedKeysOfTwo(k1: string, v1: Value, k2: string, v2: Value)
    requires k1 != k2
    ensures var keys := SortedKeys(map[k1 := v1, k2 := v2]);
      |keys| == 2 && StringOrder.Less(keys[0], keys[1]) &&
      (keys[0] == k1 || keys[0] == k2) && (keys[1] == k1 || keys[1] == k2)
  {
    TwoKeyMap(k1, v1, k2, v2);
    SortedKeysAscending(map[k1 := v1, k2 := v2]);
  }

  lemma SortedKeysTwo(k1: string, v1: Value, k2: string, v2: Value)
    requires StringOrder.Less(k1, k2)
    ensures SortedKeys(map[k1 := v1, k2 := v2]) == [k1, k2]
  {
    StringOrder.Irreflexive(k1);
    SortedKeysOfTwo(k1, v1, k2, v2);
    TwoKeysOrdered(SortedKeys(map[k1 := v1, k2 := v2]), k1, k2);
  }

  lemma JoinTwo(a: string, b: string, sep: string)
    ensures Join([a, b], sep) == a + sep + b
  {
    assert [a, b][1..] == [b];
  }

  lemma PairsTwo(a: string, b: string, params: Params)
    requires a in params && b in params
    ensures Pairs([a, b], params) == [Pair(a, params), Pair(b, params)]
  {
    var r := Pairs([a, b], params);
    assert |r| == 2 && r[0] == Pair(a, params) && r[1] == Pair(b, params);
  }

  /** A map with two entries gives the two pairs, the smaller key first. */
  lemma QueryTwo(k1: string, v1: Value, k2: string, v2: Value)
    requires StringOrder.Less(k1, k2)
    ensures Query(map[k1 := v1, k2 := v2]) == (k1 + "=" + Format(v1)) + "&" + (k2 + "=" + Format(v2))
  {
    var params := map[k1 := v1, k2 := v2];
    var p1, p2 := k1 + "=" + Format(v1), k2 + "=" + Format(v2);
    assert Pair(k1, params) == p1 && Pair(k2, params) == p2 by {
      StringOrder.Irreflexive(k1);
    }
    SortedKeysTwo(k1, v1, k2, v2);
    PairsTwo(k1, k2, params);
    JoinTwo(p1, p2, "&");
    assert Query(params) == p1 + "&" + p2;
  }
}
