/** The Kraken REST client: the secret handling of `NewClient`, the query and
    nonce handling of `Get` and `Post`, request signing, and `Ticker`. The
    nonce (a clock reading in `getNonce`) and the time `Ticker` stamps its
    results with are parameters; what the server answers is a reply value. */
module KrakenClient {
  import opened Results
  import opened Bytes
  import opened GoStrings
  import opened GoValues
  import opened Crypto
  import opened Http
  import opened QueryString
  import Decimal
  import KrakenAssets

  const ApiRoot := "https://api.kraken.com"

  /** A client: the API key and the decoded secret, `None` standing for the
      nil slice stored when no secret is given. */
  datatype Client = Client(apiKey: string, apiSecret: Option<seq<byte>>)

  /** `NewClient`: an empty secret is stored as nil; any other secret is base64
      decoded. A secret that does not decode ends the process (`log.Fatal`),
      which is the error here. */
  function NewClient(apiKey: string, apiSecret: string, prim: Primitives): (r: Result<Client>)
    ensures r.Err? <==> apiSecret != "" && prim.base64Decode(apiSecret).Err?
    ensures r.Ok? ==> r.value.apiKey == apiKey
    ensures r.Ok? ==> (r.value.apiSecret.None? <==> apiSecret == "")
    ensures r.Ok? && apiSecret != "" ==> r.value.apiSecret == Some(prim.base64Decode(apiSecret).value)
  {
    if apiSecret == "" then Ok(Client(apiKey, None))
    else
      match prim.base64Decode(apiSecret)
      case Ok(secret) => Ok(Client(apiKey, Some(secret)))
      case Err(_) => Err("error: failed to base64 decode kraken api secret")
  }

  /** `HasAuth`. */
  predicate HasAuth(c: Client) {
    c.apiKey != "" && c.apiSecret.Some?
  }

  /** A client made by `NewClient` can sign exactly when it was given both a
      key and a secret; an empty secret leaves it anonymous. */
  lemma NewClientAuth(apiKey: string, apiSecret: string, prim: Primitives)
    requires NewClient(apiKey, apiSecret, prim).Ok?
    ensures HasAuth(NewClient(apiKey, apiSecret, prim).value) <==> apiKey != "" && apiSecret != ""
  {
  }

  /** `Get`: the query string is appended only for a map whose query string is
      not empty. */
  method Get(endpoint: string, params: Option<Params>) returns (request: Request)
    ensures fresh(request)
    ensures request.verb == "GET" && request.url == WithQuery(ApiRoot + endpoint, params) && request.body == ""
    ensures request.headers == []
  {
    var url := ApiRoot + endpoint;
    if params.Some? {
      var queryString := BuildQueryString(params.value);
      if queryString != "" {
        url := url + "?" + queryString;
      }
    }
    request := new Request("GET", url, "");
  }

  /** The parameters with `nonce` set: any value the caller put there is
      overwritten, every other key keeps its value. */
  function WithNonce(params: Params, nonce: int): (r: Params)
    ensures r.Keys == params.Keys + {"nonce"}
    ensures r["nonce"] == Int(nonce)
    ensures forall k :: k in params && k != "nonce" ==> r[k] == params[k]
  {
    params["nonce" := Int(nonce)]
  }

  /** The HMAC key: the decoded secret, or no bytes for a nil secret. */
  function SecretKey(c: Client): seq<byte> {
    if c.apiSecret.Some? then c.apiSecret.value else []
  }

  /** The `API-Sign` value: an HMAC-SHA512 keyed with the secret over the
      endpoint followed by the SHA-256 of the decimal nonce and the post
      data, base64 encoded. */
  function Signature(secret: seq<byte>, endpoint: string, nonce: int, postData: string, prim: Primitives): string {
    prim.base64Encode(prim.hmacSha512(secret, Utf8(endpoint) + prim.sha256(Utf8(Decimal.Decimal(nonce) + postData))))
  }

  /** `authenticateRequest`: adds the key and the signature, in that order. */
  method AuthenticateRequest(c: Client, request: Request, endpoint: string, nonce: int, postData: string, prim: Primitives)
    modifies request
    ensures request.headers == old(request.headers) +
      [("API-Key", c.apiKey), ("API-Sign", Signature(SecretKey(c), endpoint, nonce, postData, prim))]
  {
    var signature := Signature(SecretKey(c), endpoint, nonce, postData, prim);
    request.AddHeader("API-Key", c.apiKey);
    request.AddHeader("API-Sign", signature);
  }

  /** `Post`: a nil map is replaced by a map holding only the nonce; a caller's
      map gets the nonce written into it. The body is the query string of
      the resulting map, and the request is signed only when the client has
      a key and a secret. */
  method Post(c: Client, endpoint: string, params: Option<ParamMap>, nonce: int, prim: Primitives)
    returns (request: Request)
    modifies if params.Some? then {params.value} else {}
    ensures fresh(request)
    ensures params.Some? ==> params.value.entries == WithNonce(old(params.value.entries), nonce)
    ensures request.verb == "POST" && request.url == ApiRoot + endpoint
    ensures request.body == Query(WithNonce(if params.Some? then old(params.value.entries) else map[], nonce))
    ensures request.headers ==
      if HasAuth(c) then [("API-Key", c.apiKey), ("API-Sign", Signature(SecretKey(c), endpoint, nonce, request.body, prim))]
      else []
  {
    var url := ApiRoot + endpoint;
    var sent: Params;
    if params.None? {
      sent := map["nonce" := Int(nonce)];
      assert sent == WithNonce(map[], nonce);
    } else {
      params.value.entries := params.value.entries["nonce" := Int(nonce)];
      sent := params.value.entries;
    }
    var queryString := BuildQueryString(sent);
    request := new Request("POST", url, queryString);
    if c.apiKey != "" && c.apiSecret.Some? {
      AuthenticateRequest(c, request, endpoint, nonce, queryString, prim);
    }
  }

  /** Writing the nonce keeps a map readable back: a decimal has no `&`. */
  lemma WithNonceUnambiguous(params: Params, nonce: int)
    requires Unambiguous(params)
    ensures Unambiguous(WithNonce(params, nonce))
  {
    Decimal.DecimalPlain(nonce);
    assert '&' !in Decimal.Decimal(nonce);
  }

  /** The body `Post` sends carries the nonce: read back, it holds the pair
      `nonce` and the decimal nonce, whatever the caller's map held under
      that key. */
  lemma PostBodyHasNonce(params: Params, nonce: int)
    requires Unambiguous(params)
    ensures ("nonce", Decimal.Decimal(nonce)) in ParseQuery(Query(WithNonce(params, nonce)))
    ensures forall k :: k in params && k != "nonce" ==> (k, Format(params[k])) in ParseQuery(Query(WithNonce(params, nonce)))
  {
    var sent := WithNonce(params, nonce);
    WithNonceUnambiguous(params, nonce);
    QueryRoundTrip(sent);
    EntriesMember(sent, "nonce");
    forall k | k in params && k != "nonce" ensures (k, Format(params[k])) in ParseQuery(Query(sent)) {
      EntriesMember(sent, k);
    }
  }

  /** One pair of the `result` object of a Ticker response: the ask, bid and
      last-trade arrays (their first element is the price). */
  datatype RawTickerPair = RawTickerPair(a: seq<string>, b: seq<string>, c: seq<string>)

  /** What a Ticker request gets back. `result` lists the pairs in the order
      map iteration visits them. */
  datatype TickerReply =
    | TransportFailed(message: string)
    | Undecodable(message: string)
    | Decoded(errors: seq<string>, result: seq<(string, RawTickerPair)>)

  /** The `Ticker` struct. */
  datatype TickerValue = TickerValue(pair: string, timestamp: Instant, ask: Float64, bid: Float64, last: Float64)

  /** How `Ticker` ends. `Panicked`: the request error is ignored and a nil
      response is read, or a pair has an empty ask, bid or last array. */
  datatype TickerOutcome =
    | Tickers(tickers: map<string, TickerValue>)
    | Failed(message: string)
    | Panicked

  const TickerEndpoint := "/0/public/Ticker"

  /** The parameters of a Ticker request. */
  function TickerParams(pairs: seq<string>): (r: Params)
    ensures r.Keys == {"pair"} && r["pair"] == Str(Join(pairs, ","))
  {
    map["pair" := Str(Join(pairs, ","))]
  }

  /** Whether some pair of `result` lacks an ask, a bid or a last price. */
  predicate MissingPrice(result: seq<(string, RawTickerPair)>) {
    exists i | 0 <= i < |result| :: |result[i].1.a| == 0 || |result[i].1.b| == 0 || |result[i].1.c| == 0
  }

  /** The name a pair of `result` is entered under. */
  function PairName(pair: string): string {
    KrakenAssets.Substitute(KrakenAssets.PairSubsTable, pair)
  }

  /** No later pair of `result` is entered under the same name as pair `i`. */
  predicate LastNamed(result: seq<(string, RawTickerPair)>, i: int)
    requires 0 <= i < |result|
  {
    forall j :: i < j < |result| ==> PairName(result[j].0) != PairName(result[i].0)
  }

  /** The tickers of `result`, entered in iteration order under the normalised
      pair name; `None` when a price is missing. */
  function TickerMap(result: seq<(string, RawTickerPair)>, now: Instant, parseFloat: string -> ParseResult)
    : (r: Option<map<string, TickerValue>>)
    ensures r.None? <==> MissingPrice(result)
    ensures r.Some? ==> r.value.Keys == set i | 0 <= i < |result| :: PairName(result[i].0)
    ensures r.Some? ==> forall k :: k in r.value ==> r.value[k].pair == k && r.value[k].timestamp == now
  {
    if result == [] then Some(map[])
    else
      var n := |result|;
      var prefix := TickerMap(result[..n - 1], now, parseFloat);
      var (pair, val) := result[n - 1];
      assert forall i :: 0 <= i < n - 1 ==> result[..n - 1][i] == result[i];
      if prefix.None? then None
      else if |val.a| == 0 || |val.b| == 0 || |val.c| == 0 then None
      else
        var name := PairName(pair);
        Some(prefix.value[name := TickerOf(result[n - 1], now, parseFloat)])
  }

  /** Each name holds the prices of the last pair entered under it: the first
      element of its ask, bid and last-trade arrays. */
  lemma {:induction false} TickerMapValues(result: seq<(string, RawTickerPair)>, now: Instant, parseFloat: string -> ParseResult,
                                           i: int)
    requires TickerMap(result, now, parseFloat).Some?
    requires 0 <= i < |result| && LastNamed(result, i)
    ensures var raw := result[i].1;
      |raw.a| > 0 && |raw.b| > 0 && |raw.c| > 0 &&
      TickerMap(result, now, parseFloat).value[PairName(result[i].0)] == TickerOf(result[i], now, parseFloat)
    decreases |result|
  {
    var n := |result|;
    var prefix := result[..n - 1];
    TickerMapLast(result, now, parseFloat);
    if i < n - 1 {
      assert prefix[i] == result[i];
      assert LastNamed(prefix, i) by {
        forall j | i < j < |prefix| ensures PairName(prefix[j].0) != PairName(prefix[i].0) {
          assert prefix[j] == result[j];
        }
      }
      TickerMapValues(prefix, now, parseFloat, i);
    }
  }

  /** The ticker a pair of `result` is entered as. */
  function TickerOf(entry: (string, RawTickerPair), now: Instant, parseFloat: string -> ParseResult): TickerValue
    requires |entry.1.a| > 0 && |entry.1.b| > 0 && |entry.1.c| > 0
  {
    TickerValue(PairName(entry.0), now, parseFloat(entry.1.a[0]).value, parseFloat(entry.1.b[0]).value, parseFloat(entry.1.c[0]).value)
  }

  /** The last pair is entered over the map of those before it. */
  lemma TickerMapLast(result: seq<(string, RawTickerPair)>, now: Instant, parseFloat: string -> ParseResult)
    requires TickerMap(result, now, parseFloat).Some? && result != []
    ensures var last := result[|result| - 1];
      |last.1.a| > 0 && |last.1.b| > 0 && |last.1.c| > 0 &&
      TickerMap(result[..|result| - 1], now, parseFloat).Some? &&
      TickerMap(result, now, parseFloat).value ==
        TickerMap(result[..|result| - 1], now, parseFloat).value[PairName(last.0) := TickerOf(last, now, parseFloat)]
  {
  }

  /** What `Ticker` makes of the reply. */
  function TickerOutcomeOf(reply: TickerReply, now: Instant, parseFloat: string -> ParseResult): TickerOutcome {
    match reply
    case TransportFailed(_) => Panicked
    case Undecodable(message) => Failed(message)
    case Decoded(errors, result) =>
      if |errors| > 0 then Failed(errors[0])
      else
        var m := TickerMap(result, now, parseFloat);
        if m.None? then Panicked else Tickers(m.value)
  }

  /** The loop of `Ticker` that fills the result map. */
  method CollectTickers(result: seq<(string, RawTickerPair)>, now: Instant, parseFloat: string -> ParseResult)
    returns (tickers: Option<map<string, TickerValue>>)
    ensures tickers == TickerMap(result, now, parseFloat)
  {
    var m: map<string, TickerValue> := map[];
    for i := 0 to |result|
      invariant TickerMap(result[..i], now, parseFloat) == Some(m)
    {
      assert result[..i + 1][..i] == result[..i];
      var (pair, val) := result[i];
      if |val.a| == 0 || |val.b| == 0 || |val.c| == 0 {
        assert TickerMap(result[..i + 1], now, parseFloat).None?;
        assert result[..i + 1] + result[i + 1..] == result;
        TickerMapMissing(result[..i + 1], result[i + 1..], now, parseFloat);
        return None;
      }
      var normalizedPair := KrakenAssets.GetNormalizePairName(pair);
      var ticker := TickerValue(normalizedPair, now, parseFloat(val.a[0]).value, parseFloat(val.b[0]).value, parseFloat(val.c[0]).value);
      m := m[normalizedPair := ticker];
    }
    assert result[..|result|] == result;
    return Some(m);
  }

  /** A missing price anywhere makes the whole map missing. */
  lemma TickerMapMissing(front: seq<(string, RawTickerPair)>, back: seq<(string, RawTickerPair)>, now: Instant, parseFloat: string -> ParseResult)
    requires TickerMap(front, now, parseFloat).None?
    ensures TickerMap(front + back, now, parseFloat).None?
  {
    var i :| 0 <= i < |front| && (|front[i].1.a| == 0 || |front[i].1.b| == 0 || |front[i].1.c| == 0);
    assert (front + back)[i] == front[i];
  }

  /** The request of `Ticker`: the pairs joined with commas into one `pair`
      parameter, sent with `Post` when the client can sign and with `Get`
      otherwise. */
  method TickerRequest(c: Client, pairs: seq<string>, nonce: int, prim: Primitives) returns (request: Request)
    ensures fresh(request)
    ensures HasAuth(c) ==>
      request.verb == "POST" && request.url == ApiRoot + TickerEndpoint &&
      request.body == Query(WithNonce(TickerParams(pairs), nonce))
    ensures !HasAuth(c) ==>
      request.verb == "GET" && request.url == WithQuery(ApiRoot + TickerEndpoint, Some(TickerParams(pairs)))
  {
    var params := map["pair" := Str(Join(pairs, ","))];
    if HasAuth(c) {
      var caller := new ParamMap(params);
      request := Post(c, TickerEndpoint, Some(caller), nonce, prim);
    } else {
      request := Get(TickerEndpoint, Some(params));
    }
  }

  /** `Ticker`: no pairs is an error before any request; otherwise the
      request is made and its reply turned into the outcome. */
  method Ticker(c: Client, pairs: seq<string>, reply: TickerReply, now: Instant, nonce: int,
                prim: Primitives, parseFloat: string -> ParseResult)
    returns (outcome: TickerOutcome, request: Option<Request>)
    ensures pairs == [] ==> outcome == Failed("no pairs") && request.None?
    ensures pairs != [] ==> outcome == TickerOutcomeOf(reply, now, parseFloat)
    ensures pairs != [] ==> request.Some? && fresh(request.value)
    ensures pairs != [] && HasAuth(c) ==>
      request.value.verb == "POST" && request.value.url == ApiRoot + TickerEndpoint &&
      request.value.body == Query(WithNonce(TickerParams(pairs), nonce))
    ensures pairs != [] && !HasAuth(c) ==>
      request.value.verb == "GET" && request.value.url == WithQuery(ApiRoot + TickerEndpoint, Some(TickerParams(pairs)))
  {
    if |pairs| == 0 {
      return Failed("no pairs"), None;
    }
    var r := TickerRequest(c, pairs, nonce, prim);
    request := Some(r);
    match reply
    case TransportFailed(_) =>
      outcome := Panicked;
    case Undecodable(message) =>
      outcome := Failed(message);
    case Decoded(errors, result) =>
      if |errors| > 0 {
        outcome := Failed(errors[0]);
      } else {
        var tickers := CollectTickers(result, now, parseFloat);
        outcome := if tickers.None? then Panicked else Tickers(tickers.value);
      }
  }

  /** An anonymous Ticker request asks for `pair=` and the comma-joined pairs. */
  lemma TickerUrl(pairs: seq<string>)
    requires pairs != []
    ensures WithQuery(ApiRoot + TickerEndpoint, Some(TickerParams(pairs))) ==
      ApiRoot + TickerEndpoint + "?" + ("pair=" + Join(pairs, ","))
  {
    assert Query(TickerParams(pairs)) == "pair=" + Join(pairs, ",") by {
      QuerySingle("pair", Str(Join(pairs, ",")));
      assert "pair" + "=" == "pair=";
    }
  }

  /** A result whose every pair has prices gives a map keyed by the normalised
      names, for example "XXBTZUSD" comes back under "BTC/USD". */
  lemma TickerKeyedByNormalizedName(raw: RawTickerPair, now: Instant, parseFloat: string -> ParseResult)
    requires |raw.a| > 0 && |raw.b| > 0 && |raw.c| > 0
    ensures var m := TickerMap([("XXBTZUSD", raw)], now, parseFloat);
      m.Some? && m.value.Keys == {"BTC/USD"} && m.value["BTC/USD"].pair == "BTC/USD"
  {
    KrakenAssets.PairExampleBtc();
    var m := TickerMap([("XXBTZUSD", raw)], now, parseFloat);
    assert [("XXBTZUSD", raw)][..0] == [];
  }
}
