/** The Binance account API: the error carried by a failed response, the
    parameters `PostOrder` sends and its status rule, and `GetAllPriceTicker`. */
module BinanceRestApi {
  import opened Results
  import opened Bytes
  import opened GoValues
  import opened Http
  import opened QueryString
  import BinanceRest

  /** An HTTP response as far as these calls look at it. */
  datatype Response = Response(statusCode: int, body: seq<byte>)

  /** `RestApiError`: the status code and the body bytes of a failed response. */
  datatype RestApiError = RestApiError(statusCode: int, body: seq<byte>)

  /** `NewRestApiErrorFromResponse`; the error of reading the body is dropped
      and not modelled. */
  function NewRestApiErrorFromResponse(r: Response): (e: RestApiError)
    ensures e.statusCode == r.statusCode && e.body == r.body
  {
    RestApiError(r.statusCode, r.body)
  }

  /** `Error()`: the text of the error is the body, byte for byte (a Go
      string is a byte sequence). */
  function Error(e: RestApiError): (text: seq<byte>)
    ensures |text| == |e.body|
  {
    e.body
  }

  /** The text of the error made from a response is that response's body. */
  lemma ErrorIsResponseBody(r: Response)
    ensures Error(NewRestApiErrorFromResponse(r)) == r.body
  {
  }

  const OrderTypeMarket := "MARKET"

  datatype OrderParameters = OrderParameters(
    symbol: string,
    side: string,
    orderType: string,
    timeInForce: string,
    quantity: Float64,
    price: Float64,
    newClientOrderId: string)

  /** The parameters of `PostOrder`, inserted one after the other: the
      symbol, side, type, quantity and client order id always; the price
      (as `formatPrice` prints it, standing for `%.8f`) unless the order is a
      market order; the time in force only when it is set. */
  method OrderParams(order: OrderParameters, formatPrice: Float64 -> string) returns (params: Params)
    ensures params.Keys ==
      {"symbol", "side", "type", "quantity", "newClientOrderId"} +
      (if order.orderType != OrderTypeMarket then {"price"} else {}) +
      (if order.timeInForce != "" then {"timeInForce"} else {})
    ensures params["symbol"] == Str(order.symbol) && params["side"] == Str(order.side)
    ensures params["type"] == Str(order.orderType) && params["quantity"] == Float(order.quantity)
    ensures params["newClientOrderId"] == Str(order.newClientOrderId)
    ensures "price" in params <==> order.orderType != OrderTypeMarket
    ensures "price" in params ==> params["price"] == Str(formatPrice(order.price))
    ensures "timeInForce" in params <==> order.timeInForce != ""
    ensures "timeInForce" in params ==> params["timeInForce"] == Str(order.timeInForce)
  {
    params := map[];
    params := params["symbol" := Str(order.symbol)];
    params := params["side" := Str(order.side)];
    params := params["type" := Str(order.orderType)];
    params := params["quantity" := Float(order.quantity)];
    if order.orderType != OrderTypeMarket {
      params := params["price" := Str(formatPrice(order.price))];
    }
    params := params["newClientOrderId" := Str(order.newClientOrderId)];
    if order.timeInForce != "" {
      params := params["timeInForce" := Str(order.timeInForce)];
    }
  }

  /** What the POST of an order gets back: a request error or a response. */
  datatype PostReply = TransportFailed(message: string) | Answered(response: Response)

  /** The error `PostOrder` returns. */
  datatype PostError = RequestError(message: string) | ApiError(apiError: RestApiError)

  /** `PostOrder`'s status rule: a request error is returned without a
      response; a status of 400 or more returns the response together with
      a `RestApiError` carrying its status and body; any other status
      returns the response and no error. Signing and sending the request is
      not part of this model; `sent` is the parameter map handed to it. */
  method PostOrder(order: OrderParameters, reply: PostReply, formatPrice: Float64 -> string)
    returns (sent: Params, response: Option<Response>, err: Option<PostError>)
    ensures sent.Keys ==
      {"symbol", "side", "type", "quantity", "newClientOrderId"} +
      (if order.orderType != OrderTypeMarket then {"price"} else {}) +
      (if order.timeInForce != "" then {"timeInForce"} else {})
    ensures sent["symbol"] == Str(order.symbol) && sent["side"] == Str(order.side)
    ensures sent["type"] == Str(order.orderType) && sent["quantity"] == Float(order.quantity)
    ensures sent["newClientOrderId"] == Str(order.newClientOrderId)
    ensures "price" in sent <==> order.orderType != OrderTypeMarket
    ensures "price" in sent ==> sent["price"] == Str(formatPrice(order.price))
    ensures "timeInForce" in sent <==> order.timeInForce != ""
    ensures "timeInForce" in sent ==> sent["timeInForce"] == Str(order.timeInForce)
    ensures reply.TransportFailed? ==> response == None && err == Some(RequestError(reply.message))
    ensures reply.Answered? ==> response == Some(reply.response)
    ensures reply.Answered? ==>
      (err.Some? <==> reply.response.statusCode >= 400)
    ensures reply.Answered? && err.Some? ==>
      err.value == ApiError(RestApiError(reply.response.statusCode, reply.response.body))
  {
    sent := OrderParams(order, formatPrice);
    match reply
    case TransportFailed(message) =>
      return sent, None, Some(RequestError(message));
    case Answered(r) =>
      if r.statusCode >= 400 {
        return sent, Some(r), Some(ApiError(NewRestApiErrorFromResponse(r)));
      }
      return sent, Some(r), None;
  }

  /** `GetAllPriceTicker`: a GET of the price endpoint without parameters,
      then the same conversion as `Last`, stopping at the first price that
      does not parse. */
  method GetAllPriceTicker(reply: BinanceRest.PricesReply, parseFloat: string -> ParseResult)
    returns (request: Request, r: Result<seq<BinanceRest.LastResponse>>)
    ensures fresh(request) && request.verb == "GET" && request.url == BinanceRest.ApiRoot + BinanceRest.PriceEndpoint
    ensures !reply.Decoded? ==> r == Err(reply.message)
    ensures reply.Decoded? ==> r == BinanceRest.Prices(reply.raw, parseFloat)
  {
    var endpoint := BinanceRest.PriceEndpoint;
    request := BinanceRest.Get(endpoint, None);
    if reply.RequestFailed? {
      return request, Err(reply.message);
    }
    if reply.Undecodable? {
      return request, Err(reply.message);
    }
    var response := BinanceRest.ConvertPrices(reply.raw, parseFloat);
    return request, response;
  }
}
