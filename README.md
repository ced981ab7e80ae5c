# cryptotrader exchange clients in Dafny

A model of the exchange-client core of cryptotrader, a Go toolkit for
trading on cryptocurrency exchanges. The model covers:

- **Kraken.** The REST client: the `Client` record, the sorted query string,
  GET, and POST with a nonce and an HMAC-SHA512 `API-Sign` header. Also the
  ticker call, the pair-name and asset-name substitution tables, the
  `get-trades` command's pair normalisation and printing order, and the
  ledger service. The ledger service pages backwards through the account
  ledger, merging, sorting and de-duplicating entries until nothing new
  arrives or the requested count is reached. The sort order is a parameter
  of the ledger loop: `ByTimestamp` is the loop as written, and `EntryLess`
  (timestamp, then ledger id) is the corrected loop of the finding below.
- **Binance.** The REST client (`Get`, its query string, latest prices, all
  symbols). The REST API calls for placing an order and the price ticker, with
  the `RestApiError` they return. The classification of raw multi-stream
  websocket frames by their first 40 bytes.
- **QuadrigaCX.** The client: its URL building, with the doubled slash when an
  endpoint starts with `/`; the parameter signing, which copies the caller's
  map; and the order-book listing.
- **KuCoin.** The client: a signature over `endpoint/nonce/query`, and three
  authentication headers. The dealt-orders call stamps each trade's time in
  place. The wallet-records call puts the coin name in upper case.

How the model is built:

- **State.** Go code that mutates state in place becomes imperative Dafny:
  - `Http.Request` is a class whose header list grows.
  - `QueryString.ParamMap` is a class for a Go map that a callee mutates.
  - `BinanceStream.RawStreamMessage` is a class updated by `UnmarshalJSON`.
  - `Kucoin.Trade` is a class whose timestamp is set in place.
  - Every Go loop is a method with invariants. Each is proved equal to a
    specification function, and the lemmas are about those functions.
- **Inputs from outside the program** are parameters:
  - the server's answer (a reply datatype per call);
  - hashing, HMAC and base64 (`Crypto.Primitives`);
  - `strconv.ParseFloat`;
  - the JSON decoders;
  - the clock and the nonce.
- **Go library behaviour** is written out:
  - `strings.Replace` replaces leftmost and non-overlapping.
  - `sort.Strings` uses byte order, which is code-point order (`StringOrder.Less`).
  - Integer division truncates (`Kucoin.TruncDiv`).
  - `time.Unix` rounds down.
  - `strings.ToUpper` maps ASCII letters only (see "Left out").
  - `%s` of a non-string prints the `%!s(...)` form.
  - `%v` of a value is `GoValues.Format`.
- **Map iteration order** is left open by Go. The model picks keys with `:|`,
  and each property is proved for every order.

## Model

| member | source | states |
|---|---|---|
| QueryString.SortedKeys | kraken/kraken.go:141-148 | the collected keys, sorted: exactly the map's keys, each once |
| QueryString.SortedKeysCanonical | kraken/kraken.go:141-148 | whatever order the map yields its keys in, `sort.Strings` gives the same list |
| QueryString.SortedKeysAscending | binance/rest.go:69-76 | the key list holds every key of the map, has its size, and is strictly ascending in byte order |
| QueryString.SortedKeyList | kucoin/client.go:101-108 | the gather-then-sort loop yields the sorted key list |
| QueryString.BuildQueryString | kraken/kraken.go:138-158 | the loop builds `key=value` pairs in key order joined by `&` |
| QueryString.PairsStep | kraken/kraken.go:150-155 | one loop step appends `&` only when the string is non-empty, then `key=value` |
| QueryString.QueryEmpty | quadriga/quadriga.go:112-132 | the query string is empty exactly when the map is empty (so no `?` is appended) |
| QueryString.QueryRoundTrip | binance/rest.go:66-86 | when keys hold no `&`/`=` and values no `&`, splitting the query at `&` and `=` gives back every key with its formatted value, in key order |
| QueryString.QuerySeparators | kucoin/client.go:111-116 | a query over n keys has exactly n-1 `&` separators |
| QueryString.WithQueryCut | kraken/kraken.go:77-85 | the URL is the base plus `?query` exactly when the map is non-nil and non-empty, and cutting at `?` returns base and query |
| QueryString.QuerySingle | kraken/kraken.go:150-155 | a one-key map gives `key=value` |
| QueryString.QueryTwo | kucoin/client.go:111-116 | a two-key map gives `k1=v1&k2=v2` with the smaller key first |
| QueryString.EntriesMember | kraken/kraken.go:154 | every key of the map appears in the query with its formatted value |
| Sorting.SortBySorted | kraken/ledgerservice.go:152-154 | sorting by a strict order yields a sorted sequence with the same elements |
| Sorting.SortByCanonical | kraken/ledgerservice.go:152-154 | sorting by a total order depends only on the multiset sorted |
| Sorting.SortBySortedUnchanged | kraken/ledgerservice.go:152-154 | an already sorted sequence is left as it is |
| StringOrder.Total | kraken/kraken.go:146 | byte order on strings is total (with Irreflexive and Transitive, a strict total order) |
| Decimal.DecimalRoundTrip | kraken/kraken.go:126 | the `%d` rendering of an integer parses back to it |
| Decimal.DecimalInjective | kucoin/client.go:89 | different integers print differently |
| GoValues.Unix | kraken/ledgerservice.go:122 | `Unix()` is the whole second at or before the instant |
| GoValues.FromUnix | kucoin/kucoin.go:167 | `time.Unix(sec, 0)` is an instant whose `Unix()` is `sec` |
| Bytes.Hex | quadriga/quadriga.go:101 | hex encoding doubles the length and uses only hex digits |
| Http.Request.AddHeader | kraken/kraken.go:134-135 | adding a header appends it and changes nothing else |
| KrakenAssets.GetNormalizePairName | kraken/assets.go:53-59 | the loop applies the pair table's replacements in order |
| KrakenAssets.NormalizeAssetName | kraken/assets.go:61-66 | the loop applies the asset table's replacements in order |
| KrakenAssets.SubstituteAbsent | kraken/assets.go:34-50 | a name containing none of the table's codes is unchanged |
| KrakenAssets.SubstituteMissingChars | kraken/assets.go:43-50 | a name lacking one character of each code is unchanged |
| KrakenAssets.SubstituteConcat | kraken/assets.go:53-59 | applying two tables in turn equals applying their concatenation |
| KrakenAssets.PairExampleBtc | kraken/assets.go:34-41 | "XXBTZUSD" normalises to "BTC/USD" |
| KrakenAssets.PairNotIdempotent | kraken/assets.go:40 | "BCH/USD" becomes "BCH//USD": pair normalisation is not idempotent |
| KrakenAssets.AssetExamples | kraken/assets.go:43-50 | "XXBT" becomes "BTC" and "ZUSD" becomes "USD" |
| KrakenAssets.AssetExampleLeftmost | kraken/assets.go:62-63 | "XXXBT" becomes "XBTC": the leftmost match is replaced |
| KrakenAssets.AssetEmpty | kraken/assets.go:61-66 | the empty name stays empty |
| KrakenClient.NewClient | kraken/kraken.go:49-65 | the client fails exactly when a non-empty secret is not valid base64; otherwise the key is kept and the secret is absent exactly when it was empty, decoded otherwise |
| KrakenClient.NewClientAuth | kraken/kraken.go:67-73 | a new client has authentication exactly when key and secret were both non-empty |
| KrakenClient.Get | kraken/kraken.go:75-92 | a GET to the API root plus endpoint, with `?query` only for a non-empty map, no body and no headers |
| KrakenClient.WithNonce | kraken/kraken.go:99-106 | the parameters gain `nonce` and keep every other entry |
| KrakenClient.AuthenticateRequest | kraken/kraken.go:124-136 | exactly `API-Key` then `API-Sign` are appended, the signature being base64 of HMAC-SHA512(secret, endpoint + SHA-256(nonce + body)) |
| KrakenClient.Post | kraken/kraken.go:94-122 | the caller's map gains the nonce in place; the body is the query of the map with the nonce; headers are added only when the client has authentication |
| KrakenClient.PostBodyHasNonce | kraken/kraken.go:105-110 | the POST body carries `nonce=<nonce>` and every other parameter with its value |
| KrakenClient.TickerParams | kraken/kraken.go:195-197 | the only parameter is `pair`, the pairs joined by commas |
| KrakenClient.TickerMap | kraken/kraken.go:220-231 | the map fails exactly when some pair lacks a price, and is otherwise keyed by the normalised pair names, each ticker naming its key and stamped `now` |
| KrakenClient.TickerMapValues | kraken/kraken.go:220-231 | each name holds the first ask, bid and last-trade prices of the last pair entered under it |
| KrakenClient.CollectTickers | kraken/kraken.go:222-231 | the loop over the result builds that map |
| KrakenClient.TickerMapMissing | kraken/kraken.go:227-229 | once a pair without a price is met, later pairs cannot rescue the result |
| KrakenClient.TickerRequest | kraken/kraken.go:201-205 | a client with authentication POSTs with the nonce, otherwise it GETs with the pairs in the URL |
| KrakenClient.Ticker | kraken/kraken.go:188-234 | no pairs fails with "no pairs" and sends nothing; otherwise the outcome follows the reply: API error first, then the ticker map |
| KrakenClient.TickerUrl | kraken/kraken.go:195-205 | the anonymous ticker URL is `.../0/public/Ticker?pair=<pairs joined by ,>` |
| KrakenClient.TickerKeyedByNormalizedName | kraken/kraken.go:223-230 | a ticker for "XXBTZUSD" is stored under "BTC/USD" |
| KrakenTrades.NormalizePair | cmd/kraken/get-trades.go:52-61 | a table hit wins; otherwise a pair ending in "USD" ends in "/USD" afterwards; anything else is unchanged |
| KrakenTrades.NormalizePairExamples | cmd/kraken/get-trades.go:40-61 | "XXBTZUSD" gives "BTC/USD", "BCHUSD" gives "BCH/USD", "XXBTZEUR" is unchanged |
| KrakenTrades.SortTradesOrder | cmd/kraken/get-trades.go:145-150 | the printed trades are the same trades, earliest first, or latest first with `reverse` |
| KrakenTrades.TradeLessIsStrict | cmd/kraken/get-trades.go:145-150 | the comparator is a strict order in both directions |
| KrakenLedgerEntry.NewLedgerEntryFromRaw | kraken/ledgerservice.go:48-60 | the id, reference, type and class are copied, the asset is normalised, and the time is converted |
| KrakenLedgerEntry.ConvertedAssetExample | kraken/ledgerservice.go:55 | an "XXBT" ledger entry is recorded as "BTC" |
| KrakenLedgerEntry.ByTimestampIsLedgerOrder | kraken/ledgerservice.go:152-154 | the order the loop sorts by, timestamp alone, is strict and puts earlier entries first |
| KrakenLedgerEntry.EntryLessIsLedgerOrder | kraken/ledgerservice.go:152-154 | the corrected order, timestamp then ledger id, is also such an order |
| KrakenLedgerEntry.SortedAscending | kraken/ledgerservice.go:152-154 | entries sorted by any such order run in ascending time |
| KrakenDedupe.Dedupe | kraken/ledgerservice.go:176-188 | the loop keeps an entry unless its id equals that of the last entry kept |
| KrakenDedupe.DedupedIsRunHeads | kraken/ledgerservice.go:179-185 | that is the same as dropping each entry whose id equals the previous input entry's |
| KrakenDedupe.DedupedNoAdjacentDuplicates | kraken/ledgerservice.go:176-188 | no two neighbours in the result share an id |
| KrakenDedupe.DedupedUnchanged | kraken/ledgerservice.go:176-188 | input without neighbouring duplicates comes back unchanged |
| KrakenDedupe.DedupedIdempotent | kraken/ledgerservice.go:176-188 | de-duplicating twice is de-duplicating once |
| KrakenDedupe.DedupedSubsequence | kraken/ledgerservice.go:178-182 | the result keeps input entries in input order |
| KrakenDedupe.DedupedSorted | kraken/ledgerservice.go:152-157 | a sorted input stays sorted |
| KrakenDedupe.DedupedKeepsIds | kraken/ledgerservice.go:176-188 | the result has exactly the ids of the input |
| KrakenDedupe.DedupedDistinct | kraken/ledgerservice.go:152-157 | after sorting by timestamp and id, with one time per id, every id is left exactly once |
| KrakenLedger.RawLedger | kraken/ledgerservice.go:94-105 | a POST error is returned as the error; a body that does not decode gives neither response nor error; otherwise the decoded response |
| KrakenLedger.RequestParams | kraken/ledgerservice.go:119-127 | `end` is present exactly after a page, at one second past the oldest entry; `type` exactly when the option is set |
| KrakenLedger.Convert | kraken/ledgerservice.go:147-150 | each page entry is converted with its ledger id |
| KrakenLedger.Merge | kraken/ledgerservice.go:147-157 | appending, sorting by the given order and deduplicating never grows beyond held plus page, and a non-empty page leaves entries held |
| KrakenLedger.MergePage | kraken/ledgerservice.go:147-157 | the append, sort and dedupe of one page, as a loop, equals the merge function for the given order |
| KrakenLedger.PageStepCases | kraken/ledgerservice.go:159-170 | no growth stops; reaching the count stops with the last `count` entries; otherwise the next request ends at the oldest entry |
| KrakenLedger.Fetch | kraken/ledgerservice.go:118-132 | no more requests than replies; the first request carries the cursor's parameters |
| KrakenLedger.Ledger | kraken/ledgerservice.go:112-174 | the loop, sorting by the given order (`ByTimestamp` as written), returns the outcome and sends the requests that `Fetch` describes step by step |
| KrakenLedgerPaging.MergeSorted | kraken/ledgerservice.go:152-157 | a merge is sorted by the order it sorts with; deduplication keeps it so |
| KrakenLedgerPaging.StepGood | kraken/ledgerservice.go:134-170 | for any strict order, each iteration keeps the entries sorted, the count below the limit, and `end` at the oldest entry |
| KrakenLedgerPaging.LedgerSortedAndBounded | kraken/ledgerservice.go:112-174 | for any ledger order, the entries returned, on success or API error, are sorted by it and in ascending time, and on success at most `count` |
| KrakenLedgerPaging.AsWrittenSortedAndBounded | kraken/ledgerservice.go:112-174 | the loop as written, sorting by timestamp, returns entries in ascending time, and on success at most `count` |
| KrakenLedgerPaging.RateLimitRetries | kraken/ledgerservice.go:135-138 | for any order, a rate-limit answer repeats the same request with nothing else changed |
| KrakenLedgerPaging.ApiErrorStops | kraken/ledgerservice.go:140 | for any order, any other API error stops with the entries gathered so far and that error |
| KrakenLedgerPaging.MergeStartsNoLater | kraken/ledgerservice.go:147-157 | for any ledger order, a merge starts no later than the entries held before |
| KrakenLedgerPaging.StepMovesEndBack | kraken/ledgerservice.go:170 | for any ledger order, the next request's `end` is never later than the current one's |
| KrakenLedgerPaging.LedgerPagesBackwards | kraken/ledgerservice.go:121-123 | for any ledger order, the first request has no `end`, and each later `end` is no later than the one before |
| KrakenLedgerPaging.AsWrittenPagesBackwards | kraken/ledgerservice.go:112-174 | the loop as written pages backwards in the same sense |
| KrakenLedgerPaging.CorrectedMergeClean | kraken/ledgerservice.go:147-157 | in the corrected loop, when the server gives each id one time, a merge leaves every id once |
| KrakenLedgerPaging.CorrectedLedgerDistinct | kraken/ledgerservice.go:112-174 | then the corrected loop never returns an id twice |
| KrakenLedgerFinding.AsWrittenKeepsDuplicate | kraken/ledgerservice.go:152-157 | held [A,B] at one timestamp and a page [B,A] merge, sorting by timestamp, to [A,B,A] |
| KrakenLedgerFinding.AsWrittenLoopContinues | kraken/ledgerservice.go:159-170 | as written, that merge is taken for growth and the loop asks for another page holding [A,B,A] |
| KrakenLedgerFinding.AsWrittenLedgerRepeatsId | kraken/ledgerservice.go:112-174 | as written, replies [A,B], [B,A], empty, each id at one time, end with A listed twice |
| KrakenLedgerFinding.CorrectedDropsDuplicate | kraken/ledgerservice.go:152-157 | with ties broken by id, the same input merges to [A,B] |
| KrakenLedgerFinding.CorrectedLoopStops | kraken/ledgerservice.go:159-161 | so that re-fetched page stops the corrected loop with [A,B] |
| KrakenLedgerFinding.CorrectedLedgerStops | kraken/ledgerservice.go:112-174 | the corrected loop on the same replies returns [A,B] |
| BinanceStream.ClassifyIsFirstMatch | binance/types.go:108-134 | the first 40 bytes are matched in order: ticker-array prefix, `@aggTrade` anywhere, stream prefix, else not a multi-stream |
| BinanceStream.TickerFramesAreStreams | binance/types.go:109 | a ticker-array frame is also a stream frame and is classified as ticker array |
| BinanceStream.AggTradeOutsideWindow | binance/types.go:117 | a stream frame whose `@aggTrade` lies beyond byte 40 is handled as an unknown stream |
| BinanceStream.AggTradeFrameExample | binance/types.go:117 | a `bnbbtc@aggTrade` frame is classified as an aggregate trade |
| BinanceStream.RawStreamMessage.UnmarshalJSON | binance/types.go:106-135 | the raw bytes are always kept; each kind sets its own fields on success, a decode error leaves them, and a frame that is not a multi-stream is an error |
| BinanceStream.DecodeRawStreamMessage | binance/types.go:137-141 | invalid JSON gives its error and an empty message; otherwise the message holds the bytes decoded, and each kind of frame sets its own fields of the zero message or gives its error |
| BinanceRest.Get | binance/rest.go:47-64 | a GET to the API root plus endpoint, with `?query` only for a non-empty map |
| BinanceRest.Prices | binance/rest.go:111-124 | the conversion succeeds exactly when every price parses, keeping symbols and order; otherwise it fails naming the first price that does not parse |
| BinanceRest.ConvertPrices | binance/rest.go:111-124 | the loop computes that conversion |
| BinanceRest.FirstFailureUnique | binance/rest.go:113-117 | the error is the message for the first unparsable price |
| BinanceRest.Last | binance/rest.go:99-125 | a request or decode error is returned; otherwise the prices are converted |
| BinanceRest.GetAllSymbols | binance/rest.go:140-150 | the symbols in order, exactly when all prices parse; otherwise `Last`'s error unchanged: the request or decode message, or the first unparsable price's error |
| BinanceRestApi.NewRestApiErrorFromResponse | binance/restapi.go:40-46 | the error keeps the status code and the body |
| BinanceRestApi.ErrorIsResponseBody | binance/restapi.go:48-50 | the error text of a response's error is the response body |
| BinanceRestApi.OrderParams | binance/restapi.go:141-155 | exactly symbol, side, type, quantity and client order id, plus a price formatted to 8 places unless MARKET, plus time in force when set |
| BinanceRestApi.PostOrder | binance/restapi.go:140-165 | the parameters sent are exactly those of `OrderParams`, with their values; a transport error has no response; status 400 or above returns the response and a `RestApiError` with status and body; otherwise no error |
| BinanceRestApi.GetAllPriceTicker | binance/restapi.go:261-288 | a GET for all prices whose result is the price conversion, or the request's or decoder's error |
| Quadriga.FormatS | quadriga/quadriga.go:50 | `%s` of a string is the string, of anything else a `%!s(` form |
| Quadriga.NewClient | quadriga/quadriga.go:48-55 | the key and secret are kept, a string client id too |
| Quadriga.NewAnonymousClient | quadriga/quadriga.go:57-59 | every field is empty |
| Quadriga.BuildUrl | quadriga/quadriga.go:106-108 | the URL is the root, a slash, then the endpoint |
| Quadriga.BuildUrlDoubleSlash | quadriga/quadriga.go:107 | an endpoint starting with `/` gives a URL with `//` after the root |
| Quadriga.Get | quadriga/quadriga.go:72-83 | a GET to the built URL, with `?query` only for a non-empty map |
| Quadriga.Authenticated | quadriga/quadriga.go:85-104 | the parameters gain nonce, key and signature, keep all others, and the signature is hex HMAC-SHA256(secret, nonce + client id + key) |
| Quadriga.CopyParams | quadriga/quadriga.go:89-92 | the copy loop yields an equal map |
| Quadriga.AuthenticateParams | quadriga/quadriga.go:85-104 | a new map holds the signed parameters; the caller's map is not touched |
| Quadriga.Post | quadriga/quadriga.go:61-70 | a POST of the signed parameters as JSON with the JSON content type |
| Quadriga.BooksUrl | quadriga/quadriga.go:140-142 | the books URL is `https://api.quadrigacx.com//v2/ticker?book=all` |
| Quadriga.Books | quadriga/quadriga.go:139-171 | transport, status and decode errors are returned; otherwise every book key exactly once |
| KucoinClient.NewClient | kucoin/client.go:45-50 | the key and secret are kept |
| KucoinClient.PreimageParts | kucoin/client.go:88-89 | the signed text is the endpoint, a slash, the nonce, a slash and the query, and can be taken apart again |
| KucoinClient.PreimageInjective | kucoin/client.go:88-89 | different nonces or queries give different signed texts for one endpoint |
| KucoinClient.Signature | kucoin/client.go:87-93 | the signature is hex, twice the MAC's length |
| KucoinClient.AuthHeaders | kucoin/client.go:77-79 | the signature over endpoint, nonce and query, the nonce in decimal, then the key, in that order |
| KucoinClient.AuthenticateRequest | kucoin/client.go:73-81 | exactly those three headers are appended |
| KucoinClient.Get | kucoin/client.go:52-71 | a GET with `?query` only for a non-empty map, signed over that query only when key and secret are both set |
| KucoinClient.SignedQueryInUrl | kucoin/client.go:57-68 | the query signed is the one in the URL |
| Kucoin.TruncDiv | kucoin/kucoin.go:167 | Go's integer division: truncation toward zero |
| Kucoin.TruncDivNegativeExample | kucoin/kucoin.go:167 | -1500 ms gives -1 s, where floor division would give -2 |
| Kucoin.DealtOrdersParams | kucoin/kucoin.go:141-148 | `page` is the page plus one; `limit` is 20 when 0, else the limit |
| Kucoin.DealtOrdersQuery | kucoin/kucoin.go:141-150 | the signed query is `limit=<l>&page=<p+1>` |
| Kucoin.TradeTime | kucoin/kucoin.go:167 | a whole second, and for non-negative creation times the second containing it |
| Kucoin.StampTrades | kucoin/kucoin.go:166-168 | every trade's timestamp is set, in place, from its creation time |
| Kucoin.GetDealtOrders | kucoin/kucoin.go:138-171 | a GET carrying the dealt-orders parameters, signed over their query when the client has key and secret; errors pass through; a decoded response keeps the raw body and has every trade stamped |
| Kucoin.WalletRecordsPath | kucoin/kucoin.go:174-175 | the path is the prefix, the coin in upper case, and the suffix |
| Kucoin.WalletRecordsPathCaseBlind | kucoin/kucoin.go:174-175 | coin names equal up to case give the same path |
| Kucoin.WalletRecords | kucoin/kucoin.go:173-198 | a GET of the coin's path with `page`, signed over that query when the client has key and secret; the body exactly when it decodes, otherwise the request or decode error unchanged |
| Kucoin.WalletRecordsUrl | kucoin/kucoin.go:177-181 | the URL ends in `?page=<page>` |

## Left out

- HTTP transport, JSON encoding and decoding, `ioutil.ReadAll`, hashing,
  HMAC and base64 are not modelled. The server's answer is a reply datatype
  per call, and the cryptographic functions are parameters (`Crypto.Primitives`).
- Floating point is not modelled: a `float64` is opaque text (`GoValues.Float64`).
  `strconv.ParseFloat`, `util.Float64ToTime` and `fmt.Sprintf("%.8f")` are parameters.
- The clock (`time.Now`) and the nonce (`getNonce`) are parameters.
- The five-second sleep and the log line after a rate limit are left out. The retry itself is modelled.
- `log.Fatal` in the Kraken `NewClient` is modelled as an error result: the process ends there.
- `Header.Add` canonicalises header names (`API-Key` is sent as `Api-Key`). The model keeps
  them as written, since HTTP header names are case-insensitive.
- A nil map and an empty map are one value: `Get` takes `Option<Params>` only where the source tests for nil.
- `KrakenLedger.Merge`: sorts with a stable insertion sort, so entries that tie keep the
  order they were appended in. Go's `sort.Slice` does the same on up to 6 elements in every
  Go version (up to 12 from Go 1.19, whose pdqsort uses insertion sort there; earlier
  versions run a gap-6 shell pass from 7 elements). On longer input it may reorder ties. So
  for more held and fetched entries than that, the model picks one tie order where Go may
  pick another. The properties proved about sortedness,
  the count and paging hold for every tie order; which repeats `dedupe` keeps does not.
- `KrakenLedger.MergePage`: sorts the same way as `KrakenLedger.Merge`, with the same limit.
- Binance `RestClient.Post`, the order response types, cancel/account/exchange-info
  calls, the user stream and the websocket client are not part of this model.
- Quadriga `RequestEngineOrders`, Kucoin `GetUserInfo` and `GetTick` are not part of this model.
- `KrakenLedger.Ledger`: an `Unanswered` outcome stands for a server that stops answering.
  Go would keep waiting.
- `KrakenLedger.RawLedger`: returning `nil, nil` on a decode failure makes `Ledger` dereference
  nil. The model stops with `NilResponse` instead of a crash.
- `KrakenClient.Ticker`: a transport error from `Post`/`Get` is not checked before the body is
  read, and a pair with an empty price list indexes `[0]`. Both are modelled as the
  `Panicked` outcome.
- `BinanceStream.RawStreamMessage.UnmarshalJSON`: requires at least 40 bytes of frame. The method
  reads `b[0:40]`, and the model requires those 40 bytes. Go's `json.Unmarshal` passes a slice
  whose capacity reaches the end of the input, so a shorter frame followed by trailing
  whitespace reads the bytes after it instead of panicking. That case is not modelled.
- `Kucoin.TradeTime`: `CreatedAtMillis` and `page + 1` are unbounded integers. 64-bit overflow is
  not modelled.
- `Kucoin.WalletRecordsPath`: upper-cases the coin name in ASCII only (`GoStrings.ToUpper`).
  Go's `strings.ToUpper` also maps non-ASCII letters, so for such names the path differs.
- `Kucoin.WalletRecordsPathCaseBlind`: "equal up to case" means ASCII case only, for the same reason.
- `Kucoin.WalletRecords`: builds its path with `Kucoin.WalletRecordsPath`, so the same ASCII-only limit applies.
- `KucoinClient.Signature`: states the length of the hex signature only, since the MAC is a parameter.
- Errors from `http.NewRequest` and `json.Marshal` are left out. The URLs are well-formed, and the parameter
  values marshal.

## Findings

| source | as written | input that shows it | evidently intended | confidence | as-written member | corrected member |
|---|---|---|---|---|---|---|
| kraken/ledgerservice.go:152-157 | entries are sorted by timestamp only, then `dedupe` drops an entry only when its id equals the entry just before it | two entries A and B with the same timestamp are held as [A,B]; the next page returns B then A; sorting keeps [A,B,B,A] and dedupe leaves [A,B,A]; the loop goes on and returns A twice | every ledger id once, as `dedupe` intends: sort by timestamp and then ledger id, so equal ids are adjacent | not executed | KrakenLedgerFinding.AsWrittenLedgerRepeatsId | KrakenLedgerPaging.CorrectedLedgerDistinct |
