/** The KuCoin account calls: the paging parameters and the timestamps of
    `GetDealtOrders`, and the path of `WalletRecords`. What the server
    answers is a reply value. */
module Kucoin {
  import opened Results
  import opened GoStrings
  import opened GoValues
  import opened Crypto
  import opened Http
  import opened QueryString
  import Decimal
  import StringOrder
  import KucoinClient

  /** Go's `a / b` on integers: the quotient truncated toward zero. */
  function TruncDiv(a: int, b: int): (q: int)
    requires b > 0
    ensures a >= 0 ==> q * b <= a < (q + 1) * b
    ensures a < 0 ==> (q - 1) * b < a <= q * b
  {
    if a >= 0 then a / b else -((-a) / b)
  }

  /** Truncation differs from Dafny's (and Go's `time` package's) flooring on
      negative operands: 1.5 seconds before 1970 become one second before. */
  lemma TruncDivNegativeExample()
    ensures TruncDiv(-1500, 1000) == -1 && -1500 / 1000 == -2
  {
  }

  const DealtOrdersEndpoint := "/v1/order/dealt"

  /** The limit sent when none is given. */
  const DefaultLimit := 20

  /** The parameters of `GetDealtOrders`: the page, counted from one on the
      wire, and the limit, 0 standing for the default. */
  function DealtOrdersParams(limit: int, page: int): (params: Params)
    ensures params.Keys == {"page", "limit"}
    ensures params["page"] == Int(page + 1)
    ensures limit == 0 ==> params["limit"] == Int(DefaultLimit)
    ensures limit != 0 ==> params["limit"] == Int(limit)
  {
    var params := map["page" := Int(page + 1)];
    if limit == 0 then params["limit" := Int(DefaultLimit)] else params["limit" := Int(limit)]
  }

  lemma LimitBeforePage()
    ensures StringOrder.Less("limit", "page")
  {
  }

  lemma DealtOrdersParamsListed(limit: int, page: int)
    ensures DealtOrdersParams(limit, page) ==
      map["limit" := Int(if limit == 0 then DefaultLimit else limit), "page" := Int(page + 1)]
  {
  }

  /** The query string of `GetDealtOrders`: the limit, then the page. */
  lemma DealtOrdersQuery(limit: int, page: int)
    ensures Query(DealtOrdersParams(limit, page)) ==
      ("limit=" + Decimal.Decimal(if limit == 0 then DefaultLimit else limit)) + "&" + ("page=" + Decimal.Decimal(page + 1))
  {
    var l := if limit == 0 then DefaultLimit else limit;
    LimitBeforePage();
    DealtOrdersParamsListed(limit, page);
    QueryTwo("limit", Int(l), "page", Int(page + 1));
    assert "limit" + "=" == "limit=" && "page" + "=" == "page=";
  }

  /** A dealt trade. The decoded fields are never written again; the
      timestamp is filled in afterwards. */
  class Trade {
    const coinType: string
    const createdAtMillis: int
    const amount: Float64
    const dealValue: Float64
    const fee: Float64
    const dealDirection: string
    const coinTypePair: string
    const oid: string
    const dealPrice: Float64
    const orderId: string
    const feeRate: Float64
    const direction: string
    var timestamp: Instant

    constructor(coinType: string, createdAtMillis: int, amount: Float64, dealValue: Float64, fee: Float64,
                dealDirection: string, coinTypePair: string, oid: string, dealPrice: Float64, orderId: string,
                feeRate: Float64, direction: string)
      ensures this.coinType == coinType && this.createdAtMillis == createdAtMillis && this.amount == amount
      ensures this.dealValue == dealValue && this.fee == fee && this.dealDirection == dealDirection
      ensures this.coinTypePair == coinTypePair && this.oid == oid && this.dealPrice == dealPrice
      ensures this.orderId == orderId && this.feeRate == feeRate && this.direction == direction
      ensures timestamp == Instant(0)
    {
      this.coinType := coinType;
      this.createdAtMillis := createdAtMillis;
      this.amount := amount;
      this.dealValue := dealValue;
      this.fee := fee;
      this.dealDirection := dealDirection;
      this.coinTypePair := coinTypePair;
      this.oid := oid;
      this.dealPrice := dealPrice;
      this.orderId := orderId;
      this.feeRate := feeRate;
      this.direction := direction;
      timestamp := Instant(0);
    }
  }

  /** The time a trade is stamped with: its creation time in whole seconds,
      the milliseconds truncated toward zero. */
  function TradeTime(createdAtMillis: int): (t: Instant)
    ensures t.unixNanos % NanosPerSecond == 0
    ensures createdAtMillis >= 0 ==> t.unixNanos <= createdAtMillis * 1_000_000 < t.unixNanos + NanosPerSecond
  {
    FromUnix(TruncDiv(createdAtMillis, 1000))
  }

  /** The loop at the end of `GetDealtOrders`: every trade gets its timestamp
      in place, trades listed twice get the same one. */
  method StampTrades(trades: seq<Trade>)
    modifies set t | t in trades
    ensures forall t :: t in trades ==> t.timestamp == TradeTime(t.createdAtMillis)
  {
    for i := 0 to |trades|
      invariant forall j :: 0 <= j < i ==> trades[j].timestamp == TradeTime(trades[j].createdAtMillis)
    {
      trades[i].timestamp := TradeTime(trades[i].createdAtMillis);
    }
  }

  /** What `GetDealtOrders` decodes, with the raw body kept alongside. */
  datatype DealtOrdersResponse = DealtOrdersResponse(success: bool, code: string, message: string, trades: seq<Trade>, raw: string)

  /** What the request gets back: a request error, a body that cannot be
      read or decoded, or the decoded response and the body it came from. */
  datatype DealtOrdersReply =
    | TransportFailed(message: string)
    | Undecodable(message: string)
    | Decoded(success: bool, code: string, message: string, trades: seq<Trade>, rawBody: string)

  /** `GetDealtOrders`. */
  method GetDealtOrders(c: KucoinClient.Client, limit: int, page: int, reply: DealtOrdersReply, nonce: int, prim: Primitives)
    returns (request: Request, r: Result<DealtOrdersResponse>)
    modifies if reply.Decoded? then set t | t in reply.trades else {}
    ensures fresh(request)
    ensures request.verb == "GET" && request.body == ""
    ensures request.url == WithQuery(KucoinClient.ApiRoot + DealtOrdersEndpoint, Some(DealtOrdersParams(limit, page)))
    ensures request.headers ==
      if KucoinClient.Authenticates(c)
      then KucoinClient.AuthHeaders(c, DealtOrdersEndpoint, nonce, KucoinClient.SignedQuery(Some(DealtOrdersParams(limit, page))), prim)
      else []
    ensures !reply.Decoded? ==> r == Err(reply.message)
    ensures reply.Decoded? ==>
      r == Ok(DealtOrdersResponse(reply.success, reply.code, reply.message, reply.trades, reply.rawBody))
    ensures reply.Decoded? ==> forall t :: t in reply.trades ==> t.timestamp == TradeTime(t.createdAtMillis)
  {
    var params := map["page" := Int(page + 1)];
    if limit == 0 {
      params := params["limit" := Int(DefaultLimit)];
    } else {
      params := params["limit" := Int(limit)];
    }
    request := KucoinClient.Get(c, DealtOrdersEndpoint, Some(params), nonce, prim);
    match reply
    case TransportFailed(message) =>
      r := Err(message);
    case Undecodable(message) =>
      r := Err(message);
    case Decoded(success, code, message, trades, rawBody) =>
      StampTrades(trades);
      r := Ok(DealtOrdersResponse(success, code, message, trades, rawBody));
  }

  const WalletPrefix := "/v1/account/"
  const WalletSuffix := "/wallet/records"

  /** The path of `WalletRecords`: the coin code upper-cased. */
  function WalletRecordsPath(coin: string): (path: string)
    ensures |path| == |WalletPrefix| + |coin| + |WalletSuffix|
    ensures HasPrefix(path, WalletPrefix) && HasSuffix(path, WalletSuffix)
    ensures path[|WalletPrefix|..|WalletPrefix| + |coin|] == ToUpper(coin)
  {
    WalletPrefix + ToUpper(coin) + WalletSuffix
  }

  /** The path does not depend on the case the coin is written in. */
  lemma WalletRecordsPathCaseBlind(a: string, b: string)
    requires ToUpper(a) == ToUpper(b)
    ensures WalletRecordsPath(a) == WalletRecordsPath(b)
  {
  }

  /** What the wallet-records request gets back. */
  datatype WalletRecordsReply = WalletTransportFailed(message: string) | WalletUndecodable(message: string) | WalletDecoded(body: string)

  /** `WalletRecords`: a GET of the coin's path with the page number as given. */
  method WalletRecords(c: KucoinClient.Client, coin: string, page: int, reply: WalletRecordsReply, nonce: int, prim: Primitives)
    returns (request: Request, r: Result<string>)
    ensures fresh(request)
    ensures request.verb == "GET" && request.body == ""
    ensures request.url == WithQuery(KucoinClient.ApiRoot + WalletRecordsPath(coin), Some(map["page" := Int(page)]))
    ensures request.headers ==
      if KucoinClient.Authenticates(c)
      then KucoinClient.AuthHeaders(c, WalletRecordsPath(coin), nonce, KucoinClient.SignedQuery(Some(map["page" := Int(page)])), prim)
      else []
    ensures !reply.WalletDecoded? ==> r == Err(reply.message)
    ensures reply.WalletDecoded? <==> r.Ok?
    ensures reply.WalletDecoded? ==> r.value == reply.body
  {
    var endpoint := WalletPrefix + ToUpper(coin) + WalletSuffix;
    var params := map["page" := Int(page)];
    request := KucoinClient.Get(c, endpoint, Some(params), nonce, prim);
    match reply
    case WalletTransportFailed(message) =>
      r := Err(message);
    case WalletUndecodable(message) =>
      r := Err(message);
    case WalletDecoded(body) =>
      r := Ok(body);
  }

  /** A URL whose only parameter is the page ends in `?page=` and the
      decimal page. */
  lemma PageUrl(base: string, page: int)
    ensures WithQuery(base, Some(map["page" := Int(page)])) == base + "?" + ("page=" + Decimal.Decimal(page))
  {
    var m := map["page" := Int(page)];
    assert Query(m) == "page=" + Decimal.Decimal(page) by {
      QuerySingle("page", Int(page));
      assert "page" + "=" == "page=";
    }
  }

  /** The wallet-records URL always carries the page. */
  lemma WalletRecordsUrl(coin: string, page: int)
    ensures WithQuery(KucoinClient.ApiRoot + WalletRecordsPath(coin), Some(map["page" := Int(page)])) ==
      KucoinClient.ApiRoot + WalletRecordsPath(coin) + "?" + ("page=" + Decimal.Decimal(page))
  {
    PageUrl(KucoinClient.ApiRoot + WalletRecordsPath(coin), page);
  }
}
