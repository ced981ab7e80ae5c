/** The Binance REST client: query attachment in `Get`, and the conversion
    of the price list that `Last` (and `GetAllPriceTicker`) return, with
    `GetAllSymbols` on top of it. Float parsing is `strconv.ParseFloat`,
    given as a function; what the server answers is a reply value. */
module BinanceRest {
  import opened Results
  import opened GoValues
  import opened Http
  import opened QueryString

  const ApiRoot := "https://api.binance.com"

  /** `Get`: the query string is appended only for a map whose query string
      is not empty. */
  method Get(endpoint: string, params: Option<Params>) returns (request: Request)
    ensures fresh(request)
    ensures request.verb == "GET" && request.url == WithQuery(ApiRoot + endpoint, params) && request.body == ""
    ensures request.headers == []
  {
    var url := ApiRoot + endpoint;
    if params.Some? {
      var queryString := BuildQueryString(params.value);
      if queryString != "" {
        url := url + "?" + queryString;
      }
    }
    request := new Request("GET", url, "");
  }

  datatype LastResponseRaw = LastResponseRaw(symbol: string, price: string)
  datatype LastResponse = LastResponse(symbol: string, price: Float64)

  /** What a price-list request gets back: a request error, a body that does
      not decode, or the decoded list. */
  datatype PricesReply = RequestFailed(message: string) | Undecodable(message: string) | Decoded(raw: seq<LastResponseRaw>)

  /** The error for a price that does not parse. */
  function ParseError(price: string, err: string): string {
    "failed to parse as float64: " + price + ": " + err
  }

  /** Whether every price of `raw` parses. */
  predicate AllParse(raw: seq<LastResponseRaw>, parseFloat: string -> ParseResult) {
    forall i :: 0 <= i < |raw| ==> parseFloat(raw[i].price).err.None?
  }

  /** `i` is the first price of `raw` that does not parse. */
  predicate FirstFailure(raw: seq<LastResponseRaw>, parseFloat: string -> ParseResult, i: int) {
    0 <= i < |raw| && parseFloat(raw[i].price).err.Some? &&
    forall j :: 0 <= j < i ==> parseFloat(raw[j].price).err.None?
  }

  /** The converted list: the error of the first price that fails to parse,
      or every entry with its symbol and parsed price, in order. */
  function Prices(raw: seq<LastResponseRaw>, parseFloat: string -> ParseResult): (r: Result<seq<LastResponse>>)
    ensures r.Ok? <==> AllParse(raw, parseFloat)
    ensures r.Ok? ==> (|r.value| == |raw| &&
      forall i :: 0 <= i < |raw| ==> r.value[i] == LastResponse(raw[i].symbol, parseFloat(raw[i].price).value))
    ensures r.Err? ==> exists i ::
      FirstFailure(raw, parseFloat, i) && r.error == ParseError(raw[i].price, parseFloat(raw[i].price).err.value)
  {
    if raw == [] then Ok([])
    else
      var p := parseFloat(raw[0].price);
      if p.err.Some? then
        assert FirstFailure(raw, parseFloat, 0);
        Err(ParseError(raw[0].price, p.err.value))
      else
        var rest := Prices(raw[1..], parseFloat);
        if rest.Err? then
          var i :| FirstFailure(raw[1..], parseFloat, i) &&
            rest.error == ParseError(raw[1..][i].price, parseFloat(raw[1..][i].price).err.value);
          FirstFailureShift(raw, parseFloat, i);
          Err(rest.error)
        else
          AllParseShift(raw, parseFloat);
          Ok([LastResponse(raw[0].symbol, p.value)] + rest.value)
  }

  lemma FirstFailureShift(raw: seq<LastResponseRaw>, parseFloat: string -> ParseResult, i: int)
    requires raw != [] && parseFloat(raw[0].price).err.None? && FirstFailure(raw[1..], parseFloat, i)
    ensures FirstFailure(raw, parseFloat, i + 1) && raw[i + 1] == raw[1..][i]
  {
    assert forall j :: 1 <= j < |raw| ==> raw[j] == raw[1..][j - 1];
  }

  lemma AllParseShift(raw: seq<LastResponseRaw>, parseFloat: string -> ParseResult)
    requires raw != []
    ensures AllParse(raw, parseFloat) <==> parseFloat(raw[0].price).err.None? && AllParse(raw[1..], parseFloat)
    ensures forall j :: 1 <= j < |raw| ==> raw[j] == raw[1..][j - 1]
  {
    assert forall j :: 1 <= j < |raw| ==> raw[j] == raw[1..][j - 1];
  }

  /** The conversion loop of `Last`: stops at the first price that does not
      parse and returns no partial list. */
  method ConvertPrices(raw: seq<LastResponseRaw>, parseFloat: string -> ParseResult) returns (r: Result<seq<LastResponse>>)
    ensures r == Prices(raw, parseFloat)
  {
    var response: seq<LastResponse> := [];
    for i := 0 to |raw|
      invariant |response| == i
      invariant forall j :: 0 <= j < i ==> parseFloat(raw[j].price).err.None?
      invariant forall j :: 0 <= j < i ==> response[j] == LastResponse(raw[j].symbol, parseFloat(raw[j].price).value)
    {
      var last := raw[i];
      var price := parseFloat(last.price);
      if price.err.Some? {
        r := Err(ParseError(last.price, price.err.value));
        FirstFailureUnique(raw, parseFloat, i);
        return;
      }
      response := response + [LastResponse(last.symbol, price.value)];
    }
    assert AllParse(raw, parseFloat);
    assert response == Prices(raw, parseFloat).value;
    r := Ok(response);
  }

  /** Only one index is the first failure. */
  lemma FirstFailureUnique(raw: seq<LastResponseRaw>, parseFloat: string -> ParseResult, i: int)
    requires FirstFailure(raw, parseFloat, i)
    ensures Prices(raw, parseFloat) == Err(ParseError(raw[i].price, parseFloat(raw[i].price).err.value))
  {
    assert !AllParse(raw, parseFloat);
    var r := Prices(raw, parseFloat);
    assert r.Err?;
    var k :| FirstFailure(raw, parseFloat, k) && r.error == ParseError(raw[k].price, parseFloat(raw[k].price).err.value);
    assert k == i;
  }

  const PriceEndpoint := "/api/v3/ticker/price"

  /** `Last`: a GET of the price endpoint without parameters, then the
      conversion of the decoded list. */
  method Last(reply: PricesReply, parseFloat: string -> ParseResult) returns (request: Request, r: Result<seq<LastResponse>>)
    ensures fresh(request) && request.url == ApiRoot + PriceEndpoint
    ensures reply.RequestFailed? ==> r == Err(reply.message)
    ensures reply.Undecodable? ==> r == Err(reply.message)
    ensures reply.Decoded? ==> r == Prices(reply.raw, parseFloat)
  {
    request := Get(PriceEndpoint, None);
    match reply
    case RequestFailed(message) =>
      r := Err(message);
    case Undecodable(message) =>
      r := Err(message);
    case Decoded(raw) =>
      r := ConvertPrices(raw, parseFloat);
  }

  /** The symbols of a list, in order. */
  function Symbols(list: seq<LastResponse>): (r: seq<string>)
    ensures |r| == |list| && forall i :: 0 <= i < |list| ==> r[i] == list[i].symbol
  {
    if list == [] then [] else [list[0].symbol] + Symbols(list[1..])
  }

  /** `GetAllSymbols`: the symbols of `Last`, in the order the server listed them. */
  method GetAllSymbols(reply: PricesReply, parseFloat: string -> ParseResult) returns (r: Result<seq<string>>)
    ensures reply.Decoded? && AllParse(reply.raw, parseFloat) ==>
      r.Ok? && |r.value| == |reply.raw| && forall i :: 0 <= i < |reply.raw| ==> r.value[i] == reply.raw[i].symbol
    ensures !reply.Decoded? ==> r == Err(reply.message)
    ensures reply.Decoded? && !AllParse(reply.raw, parseFloat) ==> r == Err(Prices(reply.raw, parseFloat).error)
  {
    var request, lastTrades := Last(reply, parseFloat);
    if lastTrades.Err? {
      return Err(lastTrades.error);
    }
    var symbols: seq<string> := [];
    for i := 0 to |lastTrades.value|
      invariant symbols == Symbols(lastTrades.value[..i])
    {
      assert lastTrades.value[..i + 1] == lastTrades.value[..i] + [lastTrades.value[i]];
      SymbolsSnoc(lastTrades.value[..i], lastTrades.value[i]);
      symbols := symbols + [lastTrades.value[i].symbol];
    }
    assert lastTrades.value[..|lastTrades.value|] == lastTrades.value;
    return Ok(symbols);
  }

  lemma {:induction false} SymbolsSnoc(list: seq<LastResponse>, x: LastResponse)
    ensures Symbols(list + [x]) == Symbols(list) + [x.symbol]
  {
    if list != [] {
      assert (list + [x])[1..] == list[1..] + [x];
      SymbolsSnoc(list[1..], x);
    } else {
      assert [x][1..] == [];
    }
  }
}
