/** The QuadrigaCX client: URL building, query attachment in `Get`, the
    signed parameters of `Post` and the book list of `Books`. The nonce (a
    clock reading in `getNonce`) is a parameter; JSON encoding and what the
    server answers are given as values. */
module Quadriga {
  import opened Results
  import opened Bytes
  import opened GoStrings
  import opened GoValues
  import opened Crypto
  import opened Http
  import opened QueryString
  import Decimal

  const ApiRoot := "https://api.quadrigacx.com"

  datatype Client = Client(clientId: string, apiKey: string, apiSecret: string)

  /** `fmt.Sprintf("%s", v)`: a string prints as itself; any other value
      prints as Go's bad-verb notation. */
  function FormatS(v: Value): (r: string)
    ensures v.Str? ==> r == v.s
    ensures !v.Str? ==> HasPrefix(r, "%!s(")
  {
    match v
    case Str(s) => s
    case Int(i) => "%!s(int=" + Decimal.Decimal(i) + ")"
    case Float(f) => "%!s(float64=" + f.text + ")"
  }

  /** `NewClient`: the client id is whatever `%s` prints for it. */
  function NewClient(clientId: Value, apiKey: string, apiSecret: string): (c: Client)
    ensures clientId.Str? ==> c.clientId == clientId.s
    ensures c.apiKey == apiKey && c.apiSecret == apiSecret
  {
    Client(FormatS(clientId), apiKey, apiSecret)
  }

  /** `NewAnonymousClient`: every credential empty. */
  function NewAnonymousClient(): (c: Client)
    ensures c.clientId == "" && c.apiKey == "" && c.apiSecret == ""
  {
    Client("", "", "")
  }

  /** `buildURL`: the root, a slash and the endpoint, with no slash
      normalisation. */
  function BuildUrl(endpoint: string): (url: string)
    ensures HasPrefix(url, ApiRoot + "/") && url[|ApiRoot| + 1..] == endpoint
  {
    ApiRoot + "/" + endpoint
  }

  /** An endpoint written with a leading slash ends up after two slashes. */
  lemma BuildUrlDoubleSlash(endpoint: string)
    requires HasPrefix(endpoint, "/")
    ensures HasPrefix(BuildUrl(endpoint), ApiRoot + "//")
  {
    var url := BuildUrl(endpoint);
    assert url[..|ApiRoot| + 2] == ApiRoot + "/" + endpoint[..1];
  }

  /** `Get`: a nil map has no entries, so it takes no query either; the
      query string is appended only when it is not empty. */
  method Get(endpoint: string, params: Params) returns (request: Request)
    ensures fresh(request)
    ensures request.verb == "GET" && request.url == WithQuery(BuildUrl(endpoint), Some(params)) && request.body == ""
    ensures request.headers == []
  {
    var url := BuildUrl(endpoint);
    var queryString := BuildQueryString(params);
    if queryString != "" {
      url := url + "?" + queryString;
    }
    request := new Request("GET", url, "");
  }

  /** The signature: the hex HMAC-SHA256, keyed by the secret, of the decimal
      nonce followed by the client id and the API key. */
  function Signature(c: Client, nonce: int, prim: Primitives): string {
    Hex(prim.hmacSha256(Utf8(c.apiSecret), Utf8(Decimal.Decimal(nonce) + c.clientId + c.apiKey)))
  }

  /** The keys `authenticateParams` writes. */
  const AuthKeys: set<string> := {"nonce", "key", "signature"}

  /** What `authenticateParams` returns: every caller entry, then the nonce,
      the key and the signature, overwriting any caller value under those
      names. */
  function Authenticated(c: Client, params: Params, nonce: int, prim: Primitives): (r: Params)
    ensures r.Keys == params.Keys + AuthKeys
    ensures forall k :: k in params && k !in AuthKeys ==> r[k] == params[k]
    ensures r["nonce"] == Int(nonce) && r["key"] == Str(c.apiKey)
    ensures r["signature"] == Str(Signature(c, nonce, prim))
  {
    params["nonce" := Int(nonce)]["key" := Str(c.apiKey)]["signature" := Str(Signature(c, nonce, prim))]
  }

  /** The copy loop of `authenticateParams`: each entry of the caller's map,
      in map iteration order, into a new map. */
  method CopyParams(source: Params) returns (copied: Params)
    ensures copied == source
  {
    copied := map[];
    var keys := source.Keys;
    while keys != {}
      invariant keys <= source.Keys
      invariant copied.Keys == source.Keys - keys
      invariant forall k :: k in copied ==> copied[k] == source[k]
      decreases keys
    {
      var k :| k in keys;
      copied := copied[k := source[k]];
      keys := keys - {k};
    }
  }

  /** `authenticateParams`: the caller's map is copied into a fresh map,
      which alone receives the three signing entries; the caller's map is
      only read (a nil map is passed as `None`). */
  method AuthenticateParams(c: Client, params: Option<ParamMap>, nonce: int, prim: Primitives)
    returns (outParams: ParamMap)
    ensures fresh(outParams)
    ensures outParams.entries == Authenticated(c, if params.Some? then params.value.entries else map[], nonce, prim)
  {
    var source: Params := if params.Some? then params.value.entries else map[];
    var copied := CopyParams(source);
    outParams := new ParamMap(copied);
    outParams.entries := outParams.entries["nonce" := Int(nonce)];
    outParams.entries := outParams.entries["key" := Str(c.apiKey)];
    outParams.entries := outParams.entries["signature" := Str(Signature(c, nonce, prim))];
  }

  /** `Post`: the body is the JSON encoding (given as `marshal`) of the
      authenticated copy of the parameters, sent with a JSON content type. */
  method Post(c: Client, endpoint: string, params: Option<ParamMap>, nonce: int, prim: Primitives, marshal: Params -> string)
    returns (request: Request)
    ensures fresh(request)
    ensures request.verb == "POST" && request.url == BuildUrl(endpoint)
    ensures request.body == marshal(Authenticated(c, if params.Some? then params.value.entries else map[], nonce, prim))
    ensures request.headers == [("Content-Type", "application/json")]
  {
    var url := BuildUrl(endpoint);
    var authenticated := AuthenticateParams(c, params, nonce, prim);
    var body := marshal(authenticated.entries);
    request := new Request("POST", url, body);
    request.AddHeader("Content-Type", "application/json");
  }

  const BooksEndpoint := "/v2/ticker"

  function BooksParams(): (params: Params)
    ensures params.Keys == {"book"} && params["book"] == Str("all")
  {
    map["book" := Str("all")]
  }

  /** The URL `Books` requests, double slash included. */
  lemma BooksUrl()
    ensures WithQuery(BuildUrl(BooksEndpoint), Some(BooksParams())) == "https://api.quadrigacx.com//v2/ticker?book=all"
  {
    QuerySingle("book", Str("all"));
    assert BooksParams() == map["book" := Str("all")];
  }

  /** What the ticker request gets back: a request error, or a response with
      its status code, its status line, its body, and the top-level keys of
      the body's JSON object or the error decoding it. */
  datatype BooksReply =
    | TransportFailed(message: string)
    | Answered(statusCode: int, status: string, body: string, tickerKeys: Result<set<string>>)

  /** `Books`: a status other than 200 is an error carrying the status line
      and the body; otherwise every top-level key of the ticker object is
      listed exactly once, in map iteration order. */
  method Books(reply: BooksReply) returns (request: Request, r: Result<seq<string>>)
    ensures fresh(request) && request.url == WithQuery(BuildUrl(BooksEndpoint), Some(BooksParams()))
    ensures reply.TransportFailed? ==> r == Err(reply.message)
    ensures reply.Answered? && reply.statusCode != 200 ==> r == Err(reply.status + ": " + reply.body)
    ensures reply.Answered? && reply.statusCode == 200 && reply.tickerKeys.Err? ==> r == Err(reply.tickerKeys.error)
    ensures reply.Answered? && reply.statusCode == 200 && reply.tickerKeys.Ok? ==>
      r.Ok? && |r.value| == |reply.tickerKeys.value| &&
      (forall k :: k in r.value <==> k in reply.tickerKeys.value) &&
      (forall i, j :: 0 <= i < j < |r.value| ==> r.value[i] != r.value[j])
  {
    request := Get(BooksEndpoint, BooksParams());
    if reply.TransportFailed? {
      return request, Err(reply.message);
    }
    if reply.statusCode != 200 {
      return request, Err(reply.status + ": " + reply.body);
    }
    if reply.tickerKeys.Err? {
      return request, Err(reply.tickerKeys.error);
    }
    var ticker := reply.tickerKeys.value;
    var books: seq<string> := [];
    var rest := ticker;
    while rest != {}
      invariant rest <= ticker
      invariant forall k :: k in books <==> k in ticker && k !in rest
      invariant forall i, j :: 0 <= i < j < |books| ==> books[i] != books[j]
      invariant |books| + |rest| == |ticker|
      decreases |rest|
    {
      var key :| key in rest;
      books := books + [key];
      rest := rest - {key};
    }
    return request, Ok(books);
  }
}
