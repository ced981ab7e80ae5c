/** Messages of Binance's combined streams (`{"stream":...,"data":...}`):
    `UnmarshalJSON` looks at the first 40 bytes of a frame to decide how to
    decode it, first match winning. The JSON decoding of each branch is not
    modelled: a `Decoders` value says what each decode yields. */
module BinanceStream {
  import opened Results
  import opened Bytes
  import opened GoStrings

  /** The bytes of `{"stream":"!ticker@arr"`. */
  const TickerPrefix: seq<byte> := [123, 34, 115, 116, 114, 101, 97, 109, 34, 58, 34, 33, 116, 105, 99, 107, 101, 114, 64, 97, 114, 114, 34]
  /** The bytes of `@aggTrade`. */
  const AggTradeMarker: seq<byte> := [64, 97, 103, 103, 84, 114, 97, 100, 101]
  /** The bytes of `{"stream":"`. */
  const StreamPrefix: seq<byte> := [123, 34, 115, 116, 114, 101, 97, 109, 34, 58, 34]

  /** How many leading bytes the classifier looks at. */
  const Window := 40

  /** The branch a frame is decoded by. */
  datatype Kind = TickerArray | AggTradeStream | UnknownStream | NotMultiStream

  /** The decision chain of `UnmarshalJSON` on the first 40 bytes. */
  function Classify(b: seq<byte>): Kind
    requires |b| >= Window
  {
    var prefix := b[..Window];
    if HasPrefix(prefix, TickerPrefix) then TickerArray
    else if Index(prefix, AggTradeMarker) > -1 then AggTradeStream
    else if HasPrefix(prefix, StreamPrefix) then UnknownStream
    else NotMultiStream
  }

  /** The rules in the order they are tried: each names a branch and the test
      a window must pass. */
  datatype Rule = Prefix(prefix: seq<byte>, kind: Kind) | Anywhere(marker: seq<byte>, kind: Kind)

  const Rules: seq<Rule> := [Prefix(TickerPrefix, TickerArray), Anywhere(AggTradeMarker, AggTradeStream), Prefix(StreamPrefix, UnknownStream)]

  predicate Matches(rule: Rule, window: seq<byte>) {
    match rule
    case Prefix(prefix, _) => HasPrefix(window, prefix)
    case Anywhere(marker, _) => Contains(window, marker)
  }

  /** The branch of the first rule the window passes, or no branch. */
  function FirstMatch(rules: seq<Rule>, window: seq<byte>): (k: Kind)
    ensures (forall i :: 0 <= i < |rules| ==> !Matches(rules[i], window)) ==> k == NotMultiStream
    ensures k == NotMultiStream ||
      exists i :: 0 <= i < |rules| && Matches(rules[i], window) && rules[i].kind == k && FirstFrom(rules, window, i)
  {
    if rules == [] then NotMultiStream
    else if Matches(rules[0], window) then
      assert FirstFrom(rules, window, 0);
      rules[0].kind
    else
      var k := FirstMatch(rules[1..], window);
      assert forall i :: 1 <= i < |rules| ==> rules[i] == rules[1..][i - 1];
      if k == NotMultiStream then k
      else
        var i :| 0 <= i < |rules[1..]| && Matches(rules[1..][i], window) && rules[1..][i].kind == k && FirstFrom(rules[1..], window, i);
        assert rules[i + 1] == rules[1..][i];
        assert FirstFrom(rules, window, i + 1);
        k
  }

  /** No rule before the `i`-th matches. */
  predicate FirstFrom(rules: seq<Rule>, window: seq<byte>, i: int)
    requires 0 <= i <= |rules|
  {
    forall j :: 0 <= j < i ==> !Matches(rules[j], window)
  }

  /** `UnmarshalJSON`'s chain is the first-match rule table: the ticker test
      comes before the `@aggTrade` search, which comes before the generic
      stream prefix. */
  lemma ClassifyIsFirstMatch(b: seq<byte>)
    requires |b| >= Window
    ensures Classify(b) == FirstMatch(Rules, b[..Window])
  {
    var w := b[..Window];
    var r1 := Rules[1..];
    var r2 := r1[1..];
    assert Rules[0] == Prefix(TickerPrefix, TickerArray);
    assert r1[0] == Anywhere(AggTradeMarker, AggTradeStream);
    assert r2[0] == Prefix(StreamPrefix, UnknownStream);
    assert r2[1..] == [];
    assert FirstMatch(r2, w) == if HasPrefix(w, StreamPrefix) then UnknownStream else NotMultiStream;
    assert FirstMatch(r1, w) == if Contains(w, AggTradeMarker) then AggTradeStream else FirstMatch(r2, w);
    assert FirstMatch(Rules, w) == if HasPrefix(w, TickerPrefix) then TickerArray else FirstMatch(r1, w);
    assert Index(w, AggTradeMarker) > -1 <==> Contains(w, AggTradeMarker);
  }

  /** Every ticker frame also starts like a generic stream frame: the order of
      the tests, not the tests themselves, sends it to the ticker branch. */
  lemma TickerFramesAreStreams(b: seq<byte>)
    requires |b| >= Window && HasPrefix(b[..Window], TickerPrefix)
    ensures HasPrefix(b[..Window], StreamPrefix) && Classify(b) == TickerArray
  {
    assert b[..Window][..|StreamPrefix|] == b[..Window][..|TickerPrefix|][..|StreamPrefix|];
  }

  /** An `@aggTrade` that starts past byte 31 does not fit in the window, so a
      stream with a long symbol name falls through to the generic branch. */
  lemma AggTradeOutsideWindow(b: seq<byte>)
    requires |b| >= Window && HasPrefix(b, StreamPrefix) && !HasPrefix(b[..Window], TickerPrefix)
    requires forall i :: 0 <= i <= Window - |AggTradeMarker| ==> !OccursAt(b, AggTradeMarker, i)
    ensures Classify(b) == UnknownStream
  {
    var w := b[..Window];
    forall i | 0 <= i <= |w| - |AggTradeMarker| ensures !OccursAt(w, AggTradeMarker, i) {
      assert !OccursAt(b, AggTradeMarker, i);
      assert w[i..i + |AggTradeMarker|] == b[i..i + |AggTradeMarker|];
    }
    assert !Contains(w, AggTradeMarker);
    assert w[..|StreamPrefix|] == b[..|StreamPrefix|];
  }

  /** The decoded `data` of one branch, kept as the JSON text it was read from. */
  datatype JsonValue = JsonValue(text: seq<byte>)

  /** What `json.Unmarshal` yields for a frame in each branch: the stream name
      and the payload, or the decoding error. */
  datatype Decoders = Decoders(
    tickerArray: seq<byte> -> Result<(string, seq<JsonValue>)>,
    aggTrade: seq<byte> -> Result<(string, JsonValue)>,
    data: seq<byte> -> Result<(string, JsonValue)>,
    /** The top-level check `json.Unmarshal` makes before calling
        `UnmarshalJSON`: the bytes of the one JSON value in the input, or a
        syntax error. */
    value: seq<byte> -> Result<seq<byte>>)

  const NotMultiStreamError := "not part of a multi-stream"

  /** `RawStreamMessage`: the fields `UnmarshalJSON` writes in place. */
  class RawStreamMessage {
    var stream: string
    var tickers: seq<JsonValue>
    /** The zero value when no aggregated trade was decoded. */
    var aggTrade: Option<JsonValue>
    /** The nil interface when no unknown data was decoded. */
    var unknownData: Option<JsonValue>
    var rawData: seq<byte>

    /** The zero value. */
    constructor()
      ensures stream == "" && tickers == [] && aggTrade.None? && unknownData.None? && rawData == []
    {
      stream := "";
      tickers := [];
      aggTrade := None;
      unknownData := None;
      rawData := [];
    }

    /** `UnmarshalJSON`: records the raw bytes, then decodes the frame with
        the branch `Classify` picks. A decoding error is returned as is, with
        nothing but `rawData` written; no other branch is tried. */
    method UnmarshalJSON(b: seq<byte>, dec: Decoders) returns (err: Option<string>)
      requires |b| >= Window
      modifies this
      ensures rawData == b
      ensures Classify(b) == TickerArray ==>
        if dec.tickerArray(b).Err? then err == Some(dec.tickerArray(b).error) && Unchanged(old(stream), old(tickers), old(aggTrade), old(unknownData))
        else err.None? && Unchanged(dec.tickerArray(b).value.0, dec.tickerArray(b).value.1, old(aggTrade), old(unknownData))
      ensures Classify(b) == AggTradeStream ==>
        if dec.aggTrade(b).Err? then err == Some(dec.aggTrade(b).error) && Unchanged(old(stream), old(tickers), old(aggTrade), old(unknownData))
        else err.None? && Unchanged(dec.aggTrade(b).value.0, old(tickers), Some(dec.aggTrade(b).value.1), old(unknownData))
      ensures Classify(b) == UnknownStream ==>
        if dec.data(b).Err? then err == Some(dec.data(b).error) && Unchanged(old(stream), old(tickers), old(aggTrade), old(unknownData))
        else err.None? && Unchanged(dec.data(b).value.0, old(tickers), old(aggTrade), Some(dec.data(b).value.1))
      ensures Classify(b) == NotMultiStream ==>
        err == Some(NotMultiStreamError) && Unchanged(old(stream), old(tickers), old(aggTrade), old(unknownData))
    {
      rawData := b;
      var prefix := b[..Window];
      if HasPrefix(prefix, TickerPrefix) {
        var message := dec.tickerArray(b);
        if message.Err? {
          return Some(message.error);
        }
        stream := message.value.0;
        tickers := message.value.1;
        return None;
      } else if Index(prefix, AggTradeMarker) > -1 {
        var message := dec.aggTrade(b);
        if message.Err? {
          return Some(message.error);
        }
        stream := message.value.0;
        aggTrade := Some(message.value.1);
        return None;
      } else if HasPrefix(prefix, StreamPrefix) {
        var message := dec.data(b);
        if message.Err? {
          return Some(message.error);
        }
        stream := message.value.0;
        unknownData := Some(message.value.1);
        return None;
      }
      return Some(NotMultiStreamError);
    }

    /** The decoded fields, other than `rawData`, hold the given values. */
    predicate Unchanged(stream': string, tickers': seq<JsonValue>, aggTrade': Option<JsonValue>, unknownData': Option<JsonValue>)
      reads this
    {
      stream == stream' && tickers == tickers' && aggTrade == aggTrade' && unknownData == unknownData'
    }
  }

  /** `DecodeRawStreamMessage`: `json.Unmarshal` into a zero message. Input
      that is not one JSON value is rejected before `UnmarshalJSON` runs;
      otherwise `UnmarshalJSON` gets the bytes of that value, which must be
      at least 40 long (Go panics on shorter ones). */
  method DecodeRawStreamMessage(b: seq<byte>, dec: Decoders) returns (message: RawStreamMessage, err: Option<string>)
    requires dec.value(b).Ok? ==> |dec.value(b).value| >= Window
    ensures fresh(message)
    ensures dec.value(b).Err? ==> err == Some(dec.value(b).error) && message.rawData == [] && message.Unchanged("", [], None, None)
    ensures dec.value(b).Ok? ==> message.rawData == dec.value(b).value
    ensures dec.value(b).Ok? && Classify(dec.value(b).value) == TickerArray ==>
      var v := dec.value(b).value;
      if dec.tickerArray(v).Err? then err == Some(dec.tickerArray(v).error) && message.Unchanged("", [], None, None)
      else err.None? && message.Unchanged(dec.tickerArray(v).value.0, dec.tickerArray(v).value.1, None, None)
    ensures dec.value(b).Ok? && Classify(dec.value(b).value) == AggTradeStream ==>
      var v := dec.value(b).value;
      if dec.aggTrade(v).Err? then err == Some(dec.aggTrade(v).error) && message.Unchanged("", [], None, None)
      else err.None? && message.Unchanged(dec.aggTrade(v).value.0, [], Some(dec.aggTrade(v).value.1), None)
    ensures dec.value(b).Ok? && Classify(dec.value(b).value) == UnknownStream ==>
      var v := dec.value(b).value;
      if dec.data(v).Err? then err == Some(dec.data(v).error) && message.Unchanged("", [], None, None)
      else err.None? && message.Unchanged(dec.data(v).value.0, [], None, Some(dec.data(v).value.1))
    ensures dec.value(b).Ok? && Classify(dec.value(b).value) == NotMultiStream ==>
      err == Some(NotMultiStreamError) && message.Unchanged("", [], None, None)
  {
    message := new RawStreamMessage();
    var value := dec.value(b);
    if value.Err? {
      return message, Some(value.error);
    }
    err := message.UnmarshalJSON(value.value, dec);
  }

  /** A frame of a short symbol's aggregated trades, `{"stream":"bnbbtc@aggTrade",...`,
      is classified as one. */
  lemma AggTradeFrameExample(rest: seq<byte>)
    requires |rest| >= 14
    ensures var b := StreamPrefix + [98, 110, 98, 98, 116, 99] + AggTradeMarker + rest;
      Classify(b) == AggTradeStream
  {
    var head := StreamPrefix + [98, 110, 98, 98, 116, 99];
    var b := head + AggTradeMarker + rest;
    var w := b[..Window];
    assert |head| == 17 && |AggTradeMarker| == 9;
    SliceOfMiddle(head, AggTradeMarker, rest);
    assert w[17..26] == b[17..26];
    assert OccursAt(w, AggTradeMarker, 17);
    assert w[11] != TickerPrefix[11];
  }

  lemma SliceOfMiddle(p: seq<byte>, m: seq<byte>, r: seq<byte>)
    ensures (p + m + r)[|p|..|p| + |m|] == m
  {
  }
}
