/** The KuCoin client: query attachment and the authentication guard of
    `Get`, the signature pre-image and the headers of `authenticateRequest`.
    The nonce (a clock reading in `getNonce`) is a parameter. */
module KucoinClient {
  import opened Results
  import opened Bytes
  import opened GoStrings
  import opened Crypto
  import opened Http
  import opened QueryString
  import Decimal

  const ApiRoot := "https://api.kucoin.com"

  datatype Client = Client(apiKey: string, apiSecret: string)

  /** `NewClient`. */
  function NewClient(key: string, secret: string): (c: Client)
    ensures c.apiKey == key && c.apiSecret == secret
  {
    Client(key, secret)
  }

  /** Whether `Get` signs its requests: both the key and the secret are set. */
  predicate Authenticates(c: Client) {
    c.apiKey != "" && c.apiSecret != ""
  }

  /** The text `getSignature` signs: endpoint, nonce and query string, each
      followed by a slash but the last. */
  function Preimage(endpoint: string, nonce: int, queryString: string): string {
    endpoint + "/" + Decimal.Decimal(nonce) + "/" + queryString
  }

  /** The nonce and the query string can be read back from the pre-image once
      the endpoint is known: the decimal nonce holds no slash. */
  lemma PreimageParts(endpoint: string, nonce: int, queryString: string)
    ensures var p := Preimage(endpoint, nonce, queryString);
      HasPrefix(p, endpoint + "/") && Cut(p[|endpoint| + 1..], '/') == (Decimal.Decimal(nonce), queryString)
  {
    var p := Preimage(endpoint, nonce, queryString);
    var d := Decimal.Decimal(nonce);
    Decimal.DecimalPlain(nonce);
    assert '/' !in d;
    assert p[|endpoint| + 1..] == d + ['/'] + queryString;
    CutAtFirst(d, queryString, '/');
  }

  /** For one endpoint, different nonces or query strings sign different texts. */
  lemma PreimageInjective(endpoint: string, n1: int, q1: string, n2: int, q2: string)
    requires Preimage(endpoint, n1, q1) == Preimage(endpoint, n2, q2)
    ensures n1 == n2 && q1 == q2
  {
    PreimageParts(endpoint, n1, q1);
    PreimageParts(endpoint, n2, q2);
    Decimal.DecimalInjective(n1, n2);
  }

  /** `getSignature`: the pre-image is base64 encoded, the encoding is
      HMAC-SHA256 signed with the secret, and the MAC is hex encoded. */
  function Signature(c: Client, endpoint: string, nonce: int, queryString: string, prim: Primitives): (sig: string)
    ensures |sig| == 2 * |prim.hmacSha256(Utf8(c.apiSecret), Utf8(prim.base64Encode(Utf8(Preimage(endpoint, nonce, queryString)))))|
  {
    Hex(prim.hmacSha256(Utf8(c.apiSecret), Utf8(prim.base64Encode(Utf8(Preimage(endpoint, nonce, queryString))))))
  }

  /** The three headers `authenticateRequest` adds, in order. */
  function AuthHeaders(c: Client, endpoint: string, nonce: int, queryString: string, prim: Primitives): (h: seq<(string, string)>)
    ensures |h| == 3 && h[0].0 == "KC-API-SIGNATURE" && h[1].0 == "KC-API-NONCE" && h[2].0 == "KC-API-KEY"
    ensures h[0].1 == Signature(c, endpoint, nonce, queryString, prim)
    ensures h[1].1 == Decimal.Decimal(nonce) && h[2].1 == c.apiKey
  {
    [("KC-API-SIGNATURE", Signature(c, endpoint, nonce, queryString, prim)),
     ("KC-API-NONCE", Decimal.Decimal(nonce)),
     ("KC-API-KEY", c.apiKey)]
  }

  /** `authenticateRequest`: adds the signature, the decimal nonce and the key. */
  method AuthenticateRequest(c: Client, request: Request, endpoint: string, queryString: string, nonce: int, prim: Primitives)
    modifies request
    ensures request.headers == old(request.headers) + AuthHeaders(c, endpoint, nonce, queryString, prim)
  {
    var signature := Signature(c, endpoint, nonce, queryString, prim);
    request.AddHeader("KC-API-SIGNATURE", signature);
    request.AddHeader("KC-API-NONCE", Decimal.Decimal(nonce));
    request.AddHeader("KC-API-KEY", c.apiKey);
  }

  /** The query string `Get` builds and signs: none for a nil map. */
  ghost function SignedQuery(params: Option<Params>): string {
    if params.Some? then Query(params.value) else ""
  }

  /** `Get`: the query string is appended only when it is not empty; the
      request is signed, over that query string, only when the client has
      both a key and a secret. */
  method Get(c: Client, endpoint: string, params: Option<Params>, nonce: int, prim: Primitives) returns (request: Request)
    ensures fresh(request)
    ensures request.verb == "GET" && request.url == WithQuery(ApiRoot + endpoint, params) && request.body == ""
    ensures request.headers ==
      if Authenticates(c) then AuthHeaders(c, endpoint, nonce, SignedQuery(params), prim) else []
  {
    var url := ApiRoot + endpoint;
    var queryString := "";
    if params.Some? {
      queryString := BuildQueryString(params.value);
      if queryString != "" {
        url := url + "?" + queryString;
      }
    }
    request := new Request("GET", url, "");
    if c.apiKey != "" && c.apiSecret != "" {
      AuthenticateRequest(c, request, endpoint, queryString, nonce, prim);
    }
  }

  /** The query string that is signed is the one in the URL. */
  lemma SignedQueryInUrl(endpoint: string, params: Option<Params>)
    requires '?' !in endpoint
    ensures Cut(WithQuery(ApiRoot + endpoint, params), '?').1 == SignedQuery(params)
  {
    assert forall i :: 0 <= i < |ApiRoot| ==> ApiRoot[i] != '?';
    assert '?' !in ApiRoot + endpoint;
    WithQueryCut(ApiRoot + endpoint, params);
  }
}
