# FundingRateTaker, modelled in Dafny

FundingRateTaker is a C++ bot for funding-rate arbitrage on Bybit. For each configured perpetual
pair it scores the recent funding rates. For the best pairs it buys the coin on the spot market
and sells the same exposure (times the leverage) on the linear-contract market. It records every
completed hedge as a trade group in SQLite, and undoes whichever leg succeeded when a hedge
fails. A separate command-line fetcher ranks the funding history of the CoinMarketCap top 20.

This project models the decision logic of that program and proves what it promises:

- **Scoring of funding rates** (`bybit_api.dfy`). For each period, the average of the newest
  parsable samples; then the average of those means weighted by the periods that had samples.
- **The older client's newest-sample rule** (`bybit_legacy.dfy`).
- **Request building** (`wire.dfy`, `bybit_api.dfy`, `bybit_legacy.dfy`):
  - URL assembly, the `key=value&…` query in map order and the POST body strip;
  - the signature payload and its lowercase hex encoding;
  - the parameters of position queries;
  - the opposite-side rule used to close a position.
- **The funding-history fetcher** (`funding_fetcher.dfy`):
  - the URL options;
  - the field filter, the in-place sort by rate (descending) and the cut to 20;
  - the `symbol + "USDT"` mapping;
  - the report of `main`.
- **The trading module** (`trading.dfy`):
  - position sizing;
  - the total-position limit;
  - the hedge state machine with its compensation;
  - closing a trade group.
- **The trade-group store** (`storage.dfy`): an object holding in-memory tables behind a
  connected flag.

Both sides of the wire are outside the program, so they are parameters.

- **The exchange** (`exchange.dfy`) is a `Venue`: functions that take the orders sent so far
  and give the venue's equity, its spot prices, its position list and its reply to a new order.
  The `Exchange` object keeps that order history and its methods append to it. Every statement
  about hedging is therefore about which orders are sent, in which order, and what the venue
  said to each.
- **HMAC-SHA256, the JSON serialiser and the clock** are function parameters or integer
  parameters.
- **A `std::map<std::string, V>`** is a strictly sorted association list (`sorted_map.dfy`),
  because the program relies on its key order when it builds query strings.
- **A `double`** is a `real`.

Where a test in the repository disagrees with the code, the model follows the code.
`tests/sqlite_storage_test.cpp:27-33` expects trade groups to exist after only
`storeTradeData`. `storeTradeData` writes the other table, and `Storage.SqliteStorage.StoreTradeData`
states that the trade groups are left unchanged.

## Model

| member | source | states |
|---|---|---|
| Strings.Split | include/trading/trading_module.h:11 | `splitString` gives at least one part |
| Strings.SplitJoin | src/trading/trading_module.cpp:74-76 | splitting parts joined by a delimiter that none contains gives the parts back |
| Strings.SplitAtDelimiter | src/trading/trading_module.cpp:74-76 | splitting `a ++ d ++ b`, where `a` has no `d`, gives `a` then the split of `b` |
| Strings.IntToString | src/trading/trading_module.cpp:109 | `std::to_string` of an integer is non-empty and starts with `-` exactly for negatives |
| Strings.NatToStringRoundTrip | src/exchange/bybit_api.cpp:159 | the decimal text of a natural number is all digits and denotes that number |
| Strings.IntToStringRoundTrip | src/trading/trading_module.cpp:109 | reading the text of `std::to_string(i)` back, sign and digits, gives `i` |
| Strings.IntToStringInjective | src/exchange/bybit_api.cpp:151-159 | different integers get different texts, so the `limit` sent names the maximum period and no other |
| SortedMap.Put | src/exchange/bybit_api.cpp:156-159 | `map[k] = v` keeps the keys sorted, adds `k`, maps `k` to `v`, leaves every other key's value |
| SortedMap.GetDefinedIffKey | src/exchange/bybit_api.cpp:67 | a key is found exactly when it is one of the map's keys |
| BybitWire.Fields | src/exchange/bybit_api.cpp:69 | one `key=value` text per parameter, in order |
| BybitWire.BuildQuery | src/exchange/bybit_api.cpp:66-70 | the loop that appends `&` and `key=value` builds the `&`-joined query of the map in key order |
| BybitWire.QueryEmptyIff | src/exchange/bybit_api.cpp:71-73 | the query is empty exactly when there are no parameters |
| BybitWire.QueryRoundTrip | lib/exchange/bybit_api.cpp:60-67 | when no key or value holds `&` or `=`, parsing the query gives back the parameter list |
| BybitWire.StripTrailingNewline | lib/exchange/bybit_api.cpp:74-77 | the POST body is a prefix of the serialised text |
| BybitWire.StripUndoesNewline | lib/exchange/bybit_api.cpp:74-77 | the newline the serialiser appends is removed |
| BybitWire.StripKeepsOtherText | src/exchange/bybit_api.cpp:80-83 | exactly one trailing newline is removed, and text without one is unchanged |
| BybitWire.SignaturePayload | src/exchange/bybit_api.cpp:26 | the payload is timestamp, key, `5000`, parameters: starting with the timestamp, ending with the parameters, of the summed length |
| BybitWire.PayloadDeterminesParams | lib/exchange/bybit_api.cpp:25 | for a fixed timestamp and key, equal payloads mean equal parameter strings |
| BybitWire.HexByte | src/exchange/bybit_api.cpp:41 | a byte is written as two lowercase hex digits |
| BybitWire.HexEncode | src/exchange/bybit_api.cpp:39-42 | the stream loop over the digest produces the hex text of the digest |
| BybitWire.HexLayout | src/exchange/bybit_api.cpp:39-42 | the hex text has `2 * digestLen` characters, all hex digits, and byte `i` fills characters `2i` and `2i + 1` |
| BybitWire.HexValueOfDigit | src/exchange/bybit_api.cpp:41 | each hex digit reads back as its value |
| BybitWire.DecodeHexByte | src/exchange/bybit_api.cpp:41 | the two digits of a byte read back as that byte |
| BybitWire.HexRoundTrip | lib/exchange/bybit_api.cpp:38-41 | decoding the hex text gives the digest back, so the encoding loses nothing |
| BybitWire.GenerateSignature | src/exchange/bybit_api.cpp:25-45 | the signature is the hex of the HMAC of the payload, twice the digest's length |
| BybitWire.CloseSide | src/exchange/bybit_api.cpp:261 | the closing side is `Sell` exactly for a `Buy` position, and `Buy` for anything else |
| BybitApi.TrimmedBase | src/exchange/bybit_api.cpp:52-55 | one trailing `/` is removed from the base URL, and a base without one is kept |
| BybitApi.PrepareRequest | src/exchange/bybit_api.cpp:52-84 | the makeRequest steps produce the request's URL and signed parameter text |
| BybitApi.UrlQueryOnlyWithParams | src/exchange/bybit_api.cpp:52-73 | a GET with parameters gets `?` and the query after the trimmed base and endpoint; anything else gets just the trimmed base and endpoint |
| BybitApi.Parsed | src/exchange/bybit_api.cpp:181-189 | the samples that parse are no more than the samples tried |
| BybitApi.ParsedFrom | src/exchange/bybit_api.cpp:182-185 | every value counted is a sample that parsed |
| BybitApi.ParsedComplete | src/exchange/bybit_api.cpp:182-185 | every sample that parses is counted |
| BybitApi.ParsedMembers | src/exchange/bybit_api.cpp:181-189 | a value is counted exactly when some sample parses to it |
| BybitApi.ParsedEmptyIff | src/exchange/bybit_api.cpp:186-189 | nothing is counted exactly when no sample parses |
| BybitApi.Window | src/exchange/bybit_api.cpp:181 | a period looks at the newest `min(period, n)` samples, and none for a period not above 0 |
| BybitApi.WindowSamplesWithin | src/exchange/bybit_api.cpp:181-185 | every value a period averages is a sample within its window |
| BybitApi.WindowMeanDefinedIff | src/exchange/bybit_api.cpp:192 | a period has a mean exactly when some sample in its window parses |
| BybitApi.WindowMeanBounds | src/exchange/bybit_api.cpp:192-193 | a period's mean lies between the smallest and largest sample it averages |
| BybitApi.SumBounds | src/exchange/bybit_api.cpp:184 | a sum of values in `[lo, hi]` lies between `lo * n` and `hi * n` |
| BybitApi.MeanBounds | src/exchange/bybit_api.cpp:193 | the average of values in `[lo, hi]` lies in `[lo, hi]` |
| BybitApi.Means | src/exchange/bybit_api.cpp:175-197 | one mean per configured period, in order |
| BybitApi.ComputePeriodAverage | src/exchange/bybit_api.cpp:176-193 | the inner sum-and-count loop computes the period's mean |
| BybitApi.AddPeriod | src/exchange/bybit_api.cpp:192-196 | a period with samples adds mean times weight to the score and its weight to the total; one without samples adds nothing |
| BybitApi.ComputeScore | src/exchange/bybit_api.cpp:171-203 | the period loop computes the symbol's score |
| BybitApi.RealizedWeightPositiveIff | src/exchange/bybit_api.cpp:195 | with non-negative weights the total weight is non-negative, and positive exactly when some period with samples has positive weight |
| BybitApi.ScoreDefinedIff | src/exchange/bybit_api.cpp:199-201 | a symbol gets a score exactly when some period has samples and positive weight |
| BybitApi.WeightedSumLower | src/exchange/bybit_api.cpp:194-195 | the weighted sum is at least the lowest mean times the total weight |
| BybitApi.WeightedSumUpper | src/exchange/bybit_api.cpp:194-195 | the weighted sum is at most the highest mean times the total weight |
| BybitApi.CombineBounds | src/exchange/bybit_api.cpp:199-200 | with non-negative weights the score lies between the lowest and highest mean |
| BybitApi.ScoreBounds | src/exchange/bybit_api.cpp:171-200 | with non-negative weights the score lies between the smallest and largest sample in the longest window |
| BybitApi.WeightedSumOfConstant | src/exchange/bybit_api.cpp:194-195 | when every mean is `c`, the weighted sum is `c` times the total weight |
| BybitApi.CombineOfConstant | src/exchange/bybit_api.cpp:199-200 | when every mean is `c`, the score is `c` |
| BybitApi.MeansOfConstant | src/exchange/bybit_api.cpp:181-193 | when every sample is `c`, every period mean is `c` |
| BybitApi.ScoreOfConstant | src/exchange/bybit_api.cpp:171-200 | when every sample is `c`, the score is `c` |
| BybitApi.MaxPeriod | src/exchange/bybit_api.cpp:151 | the request limit is a configured period and no period exceeds it |
| BybitApi.HistoryParamsAsMap | src/exchange/bybit_api.cpp:156-159 | the history request's parameters are `symbol`, `category=linear` and `limit` put into a map |
| BybitApi.HistoryRequestQuery | src/exchange/bybit_api.cpp:156-162 | the history query is `category=linear&limit=<maxPeriod>&symbol=<symbol>` |
| BybitApi.CollectSnoc | src/exchange/bybit_api.cpp:153-203 | one more pair adds its score to the output when it has one, and nothing otherwise |
| BybitApi.GetFundingRates | src/exchange/bybit_api.cpp:137-212 | the loop over the pairs yields the specified rates; a bad configuration yields none |
| BybitApi.CollectInOrder | src/exchange/bybit_api.cpp:153-201 | the scored symbols appear in the configured order |
| BybitApi.CollectMembers | src/exchange/bybit_api.cpp:153-201 | a pair appears with a score exactly when it is configured and its score is that value |
| BybitApi.FundingRatesInPairOrder | src/exchange/bybit_api.cpp:153-201 | the output is a subsequence of the configured pairs |
| BybitApi.FundingRatesMembers | src/exchange/bybit_api.cpp:146-203 | with a valid configuration, `(symbol, x)` is output exactly when the symbol is configured and its reply to the request with limit `maxPeriod` scores `x`; a failed reply skips the symbol |
| BybitApi.Symbols | src/exchange/bybit_api.cpp:201 | the symbols of the output, one per entry, in order |
| BybitApi.Names | src/exchange/bybit_api.cpp:441 | the symbols of the instrument list, in order |
| BybitApi.GetInstruments | src/exchange/bybit_api.cpp:428-447 | the loop returns the trading symbols of a successful reply and nothing otherwise |
| BybitApi.TradingSymbolsInOrder | src/exchange/bybit_api.cpp:439-443 | the instruments returned keep the order of the list |
| BybitApi.TradingSymbolsMembers | src/exchange/bybit_api.cpp:440-441 | a symbol is returned exactly when some listed instrument with it has status `Trading` |
| BybitApi.PositionsParamsAsMap | src/exchange/bybit_api.cpp:267-274 | the position query's parameters are `category` and `settleCoin`, with `symbol` put in only when it is non-empty |
| BybitApi.PositionsParamsSent | src/exchange/bybit_api.cpp:267-274 | the map sent holds `category=linear` and `settleCoin=USDT`, and holds `symbol` exactly when the symbol is non-empty |
| BybitApi.CloseOrder | src/exchange/bybit_api.cpp:249-263 | a close order exists exactly when a position is listed; it takes the opposite side and the full size of the first |
| BybitLegacy.PrepareRequest | lib/exchange/bybit_api.cpp:50-77 | the older makeRequest steps produce its URL and signed parameter text |
| BybitLegacy.LegacyUrlQueryOnlyWithParams | lib/exchange/bybit_api.cpp:50-67 | the URL is the untrimmed base and endpoint, plus `?` and the query only for a GET with parameters |
| BybitLegacy.UrlDiffersOnlyByTrailingSlash | lib/exchange/bybit_api.cpp:50 | the two clients build the same URL unless the base ends in `/`, where the older one keeps the slash |
| BybitLegacy.LegacyHistoryParamsAsMap | lib/exchange/bybit_api.cpp:137-141 | the older history request puts `symbol` and `category=linear` and asks `category=linear&symbol=<symbol>` |
| BybitLegacy.GetFundingRates | lib/exchange/bybit_api.cpp:132-152 | the loop yields the specified newest-sample rates, or fails as a whole |
| BybitLegacy.LegacyRatesFailureSticks | lib/exchange/bybit_api.cpp:146 | a newest sample that does not parse ends the whole call |
| BybitLegacy.LegacyRatesDefinedIff | lib/exchange/bybit_api.cpp:143-146 | the call finishes exactly when every usable reply's newest sample parses |
| BybitLegacy.LegacyRatesMembers | lib/exchange/bybit_api.cpp:136-148 | `(symbol, x)` is output exactly when the symbol is configured, its reply is a non-empty success and its newest sample is `x` |
| BybitLegacy.LegacyRatesInPairOrder | lib/exchange/bybit_api.cpp:136-148 | the output keeps the configured order |
| BybitLegacy.NewestSampleIsUnitPeriodScore | lib/exchange/bybit_api.cpp:146-147 | the newest-sample rule is the newer scoring with one period of length 1 and weight 1 |
| BybitLegacy.NewestWindowMean | lib/exchange/bybit_api.cpp:146 | a period of one sample averages to the newest sample |
| BybitLegacy.SingleUnitWeight | lib/exchange/bybit_api.cpp:147 | one mean with weight 1 combines to itself |
| BybitLegacy.LegacyPositionsParamsAsMap | lib/exchange/bybit_api.cpp:206-210 | `symbol` is put first only when non-empty, then `category=linear` |
| BybitLegacy.LegacyPositionsParamsSent | lib/exchange/bybit_api.cpp:207-210 | the map always holds `category=linear`, and holds `symbol` exactly when the symbol is non-empty |
| BybitLegacy.LegacyPositionsQuery | lib/exchange/bybit_api.cpp:205-212 | the query is `category=linear`, followed by `&symbol=<symbol>` for a non-empty symbol |
| BybitLegacy.LegacyCloseOrder | lib/exchange/bybit_api.cpp:189-203 | a close order exists exactly when a position is listed in an object reply; opposite side, full size of the first |
| BybitLegacy.CloseOrderVersions | lib/exchange/bybit_api.cpp:192-201 | the two clients close alike on a successful reply, and neither closes on a null reply |
| FundingFetcher.FetchParams | funding_rate_fetcher.cpp:107-113 | the fetch always carries `category` and `symbol` |
| FundingFetcher.BaseQuery | funding_rate_fetcher.cpp:107 | the base query is `category=linear&symbol=<symbol>` |
| FundingFetcher.OptionalQuery | funding_rate_fetcher.cpp:108-113 | an option adds `&key=value` when its value is non-empty, and nothing otherwise |
| FundingFetcher.FetchQuery | funding_rate_fetcher.cpp:107-113 | `&startTime=` and `&endTime=` follow the symbol only for non-empty arguments |
| FundingFetcher.FetchUrlQuery | funding_rate_fetcher.cpp:107-113 | the URL is the history endpoint, `?`, and that query |
| FundingFetcher.FetchParamsRoundTrip | funding_rate_fetcher.cpp:107-113 | parsing the URL's query gives back the options, and `startTime` is among them exactly when it is non-empty |
| FundingFetcher.Filtered | funding_rate_fetcher.cpp:143-150 | the records kept are no more than the items listed |
| FundingFetcher.FilteredMembers | funding_rate_fetcher.cpp:144-148 | a record is kept exactly when some item has both the rate and the timestamp |
| FundingFetcher.CollectItems | funding_rate_fetcher.cpp:142-150 | the push loop collects exactly those records |
| FundingFetcher.Swap | funding_rate_fetcher.cpp:153-154 | exchanging two entries keeps the rest and the multiset |
| FundingFetcher.SortByRateDesc | funding_rate_fetcher.cpp:153-154 | after the in-place sort the array is a permutation of its old content, in non-increasing order of rate |
| FundingFetcher.SortedSplit | funding_rate_fetcher.cpp:156-159 | in a sorted sequence, every rate after the cut is at most every rate before it |
| FundingFetcher.TopOfSorted | funding_rate_fetcher.cpp:156-159 | the first `min(20, n)` of the sorted records are the top records |
| FundingFetcher.TopRatesKeepsAllOfFew | funding_rate_fetcher.cpp:157 | with at most 20 records the result is a permutation of them |
| FundingFetcher.RankTop | funding_rate_fetcher.cpp:152-159 | sort then resize gives at most 20 records, sorted, drawn from the kept ones, with every dropped rate at most every kept rate |
| FundingFetcher.GetFundingRate | funding_rate_fetcher.cpp:96-165 | success exactly when the fetch is answered with `result.list`; a failure returns nothing; a success returns the top records of the kept items |
| FundingFetcher.UsdtPairs | funding_rate_fetcher.cpp:75 | one pair per symbol |
| FundingFetcher.UsdtPairsInverse | funding_rate_fetcher.cpp:75 | each pair is its coin's symbol followed by `USDT`, in order |
| FundingFetcher.GetTop20 | funding_rate_fetcher.cpp:53-85 | the loop over `data` returns `symbol + "USDT"` for the coins with a symbol, in order, and nothing for a failed reply |
| FundingFetcher.CollectRates | funding_rate_fetcher.cpp:185-190 | a pair is recorded exactly when it is a top coin whose fetch succeeded with rates, and it is recorded with those top rates |
| FundingFetcher.PairLines | funding_rate_fetcher.cpp:199-203 | one report line per rate of a pair |
| FundingFetcher.PairLinesFacts | funding_rate_fetcher.cpp:199-202 | line `i` gives rate `i`, its annualised rate and its timestamp |
| FundingFetcher.Report | funding_rate_fetcher.cpp:194-205 | at most 10 pairs are shown, the first ones in key order, with their lines |
| FundingFetcher.ReportLinesFacts | funding_rate_fetcher.cpp:199-202 | every printed line shows a recorded rate of its pair and annualises it as `rate * 1095 * 100` |
| FundingFetcher.ShownPairsComeFirst | funding_rate_fetcher.cpp:195-196 | every pair shown sorts before every pair not shown |
| Exchange.CloseOrders | src/exchange/bybit_api.cpp:249-263 | `closePosition` sends at most one order: the opposite side of the first listed position, a linear order, for its full size |
| Exchange.SpotHoldingSnoc | src/exchange/bybit_api.cpp:237-247 | one more order changes the spot holding by that order's own effect |
| Exchange.LinearOrdersKeepSpot | src/exchange/bybit_api.cpp:225-235 | linear orders leave every spot holding unchanged |
| Exchange.Exchange.constructor | include/exchange/exchange_interface.h:14-31 | a new exchange has sent no orders |
| Exchange.Exchange.GetTotalEquity | src/exchange/bybit_api.cpp:301-310 | the equity the venue reports after the orders sent so far |
| Exchange.Exchange.GetSpotPrice | src/exchange/bybit_api.cpp:312-324 | the spot price the venue reports after the orders sent so far |
| Exchange.Exchange.GetPositions | src/exchange/bybit_api.cpp:265-298 | the position list the venue reports for the symbol |
| Exchange.Exchange.CreateOrder | src/exchange/bybit_api.cpp:225-235 | one linear order is appended and the venue's reply to it is returned |
| Exchange.Exchange.CreateSpotOrder | src/exchange/bybit_api.cpp:237-247 | one spot order is appended, with success exactly when the reply is an object with `retCode 0` |
| Exchange.Exchange.ClosePosition | src/exchange/bybit_api.cpp:249-263 | exactly the close orders of the symbol are appended |
| Storage.ActiveGroups | src/storage/sqlite_storage.cpp:137-151 | no more groups are listed than rows stored |
| Storage.ActiveGroupsOfActiveRows | src/storage/sqlite_storage.cpp:139-147 | when every row is active, one text per row, in order, formatted `exchange:symbol:spot_fut_leverage` |
| Storage.FormatGroupSplit | src/storage/sqlite_storage.cpp:139-141 | when exchange and symbol hold no `:`, splitting the group text on `:` gives the exchange then the symbol |
| Storage.FormatGroupContainsSymbol | src/storage/sqlite_storage.cpp:139-141 | the group text contains the symbol |
| Storage.StoredGroupIsListed | tests/sqlite_storage_test.cpp:35-42 | after storing the BTCUSDT group, one group is listed and it contains `BTCUSDT` |
| Storage.SqliteStorage.constructor | src/storage/sqlite_storage.cpp:24-66 | the handle exists when open succeeds; connected exactly when open and both table creations succeed; both tables start empty |
| Storage.SqliteStorage.IsConnectionValid | src/storage/sqlite_storage.cpp:100-102 | valid exactly when connected |
| Storage.SqliteStorage.StoreTradeData | src/storage/sqlite_storage.cpp:74-98 | connected: one trade row appended; not connected: nothing; trade groups always unchanged |
| Storage.SqliteStorage.StoreTradeGroup | src/storage/sqlite_storage.cpp:104-135 | connected: one active group row appended; not connected: nothing; trades always unchanged |
| Storage.SqliteStorage.GetActiveTradeGroups | src/storage/sqlite_storage.cpp:137-151 | the loop returns every stored group formatted, in order, since no code clears `active` |
| Trading.Clamp | src/trading/trading_module.cpp:39-44 | the clamp never exceeds the upper bound, reaches the lower bound when the bounds are ordered, and keeps a value already within them |
| Trading.PositionSize | src/trading/trading_module.cpp:21-47 | zero under low equity; otherwise at most `maxPositionSize * price`, at least `minPositionSize * price` when that is below, and the risk-capped scaled base when that is within both |
| Trading.ScaledMonotone | src/trading/trading_module.cpp:31-37 | the scaled base does not decrease as `abs(rate)` grows |
| Trading.PositionSizeMonotone | src/trading/trading_module.cpp:31-44 | the size does not decrease as `abs(rate)` grows: the clamps keep the order |
| Trading.PositionSizeIgnoresRate | src/trading/trading_module.cpp:33-37 | without scaling the size does not depend on the rate |
| Trading.TotalValueAtLeastEach | src/trading/trading_module.cpp:53-55 | with non-negative values the total is at least each position's value |
| Trading.TotalValueNonNegative | src/trading/trading_module.cpp:53-55 | with non-negative values the total is not negative |
| Trading.LargePositionBlocks | src/trading/trading_module.cpp:49-60 | one position worth the whole allowance makes the limit check fail |
| Trading.SkippedSymbolIsUntouched | src/trading/trading_module.cpp:88-92 | a symbol with size or spot price not above 0 sends no order and stores nothing |
| Trading.PlanQuantities | src/trading/trading_module.cpp:88-96 | a hedge is planned exactly when size and spot price are positive; the spot quantity times the price is the size, and the contract quantity is the spot quantity times the leverage |
| Trading.HedgeStepOutcome | src/trading/trading_module.cpp:104-123 | the spot buy, then the contract sell; a group with the futures id iff both legs succeed and the store is connected; after a completed hedge no further order; after a failed one a spot sell of the same quantity iff the buy succeeded, then the symbol's close orders iff the contract leg succeeded |
| Trading.ContractTestsDifferOnlyOnNull | src/trading/trading_module.cpp:106 | the corrected contract test implies the one as written, and they differ exactly on a null reply |
| Trading.AsWrittenAgreesOnAnswers | src/trading/trading_module.cpp:104-123 | on a venue that answers every contract order, the step as written and the corrected step are the same |
| Trading.HedgePassStep | src/trading/trading_module.cpp:87 | the loop over the rates is one hedge step per entry, in order |
| Trading.FailedHedgeRestoresSpot | src/trading/trading_module.cpp:116-118 | after a failed hedge the spot holding of the symbol is what it was, when the reversing sell is accepted |
| Trading.CompletedHedgeAddsSpot | src/trading/trading_module.cpp:104-114 | a completed hedge adds exactly the spot quantity to the holding |
| Trading.HedgePassAppends | src/trading/trading_module.cpp:87-124 | the loop only appends orders and groups: at most one group per listed symbol, each an active `BYBIT` group of a listed symbol at the configured leverage, and none when the store is disconnected |
| Trading.StepAppends | src/trading/trading_module.cpp:88-123 | one symbol only appends, and at most one group, for that symbol |
| Trading.NullContractReplyStoredAsWritten | src/trading/trading_module.cpp:106 | with the test as written, a null contract reply after an accepted buy stores a group with an empty futures id and sends no order beyond the two legs; the corrected step stores nothing and sells the spot back |
| Trading.NullContractReplyExample | src/trading/trading_module.cpp:104-123 | a concrete input: as written a group is stored; as corrected the spot leg is sold back and nothing is stored |
| Trading.GroupWithoutColonClosesNothing | src/trading/trading_module.cpp:74-78 | a group with no `:` closes nothing |
| Trading.StoredGroupClosesItsSymbol | src/trading/trading_module.cpp:73-79 | closing a stored group closes the position of its symbol |
| Trading.TradingModule.constructor | src/trading/trading_module.cpp:9-11 | the module works on the given exchange, store and configuration |
| Trading.TradingModule.CalculatePositionSize | src/trading/trading_module.cpp:21-47 | the straight-line steps compute the specified size from the current equity and price |
| Trading.TradingModule.CheckTotalPositionLimit | src/trading/trading_module.cpp:49-60 | true exactly when the sum of all position values is below `totalInvestment * maxTotalPosition` |
| Trading.TradingModule.CloseTradeGroup | src/trading/trading_module.cpp:73-79 | the orders of closing `parts[1]` when there are at least two parts, and none otherwise |
| Trading.TradingModule.HedgeOne | src/trading/trading_module.cpp:88-123 | the orders and groups after one symbol are those of the corrected hedge step `Trading.HedgeStep`, with the contract leg judged by `Trading.ContractOk`; trades are untouched |
| Trading.TradingModule.ExecuteHedgeStrategy | src/trading/trading_module.cpp:81-126 | over the limit, no order and no group; otherwise the symbols' corrected hedge steps in order |

## Left out

- HTTP through curl, the response buffer callbacks, the CoinMarketCap key file and the request headers are not modelled. A reply is a parsed value given to the model, or a function from the request to that value.
- The JSON parser and JSON values are not modelled.
  - A reply is a datatype.
  - A null reply and a reply that is not a JSON object are both `NotObject`.
  - A `result.list` that is missing or not an array counts as no list.
- `Json::FastWriter`, the HMAC-SHA256 of OpenSSL and the millisecond clock are parameters of the signing functions. `time(nullptr)` is the integer parameter `now`.
- `std::to_string` of quantities and the text of `double` values are not modelled; quantities are `real`.
- The `std::stod` failures are modelled only where the source catches them, in the per-sample parse of the newer scoring. The older `getFundingRates` lets the exception escape, so that call as a whole yields `None`.
- BybitApi.CloseOrder: the `std::stod` of the position size that can throw in `closePosition` is not modelled; the size is already a real. The same holds for the fetcher's `fundingRate` parse, and for the equity and price parses.
- Floating point is not modelled: rounding, infinities and NaN. A zero `topPairsCount`, which makes the base position a division by zero, is excluded by the sizing functions' precondition.
- The `Venue` answers from the order history alone. Positions, equity and prices are not derived from fills, and what `closePosition` does to a position is not modelled. The spot holding is derived from the accepted spot orders.
- The SQLite engine, the SQL text and row order are not modelled.
  - The tables start empty in each run.
  - An insert while connected always succeeds.
  - The model lists rows in insertion order; the query has no ORDER BY, so the source promises no order.
  - The `prepare` and `step` failures and the `trades` timestamp default are not modelled.
- The configuration getters, the logger, the singletons with their mutexes, `ExchangeFactory`, `setLeverage`, `getSpotBalances`, `displayPositions`, `getTopFundingRates` and all printing are not modelled. The report of `main` is modelled as the list of lines it prints.
- The older client's `createOrder`, `createSpotOrder`, `getTotalEquity` and `getSpotPrice` match the newer ones apart from the URL, so they share `Exchange.Exchange`.
- `splitString` is declared but its body is not part of this model. It is taken to be the ordinary split on a delimiter, with the empty text splitting into one empty part (`Strings.Split`).
- `tests/trading_module_test.cpp` and the mock exchange are not modelled. The test expects two rates while the mock returns none by default.
- Trading.TradingModule.HedgeOne, Trading.TradingModule.ExecuteHedgeStrategy: the contract leg is judged by the corrected `Trading.ContractOk`, not by the test as written at `src/trading/trading_module.cpp:106`. On a null contract reply these methods sell the spot back and store nothing, where the source stores a group with an empty futures id (see Findings). On every answered contract order the two agree (`Trading.AsWrittenAgreesOnAnswers`).
- Trading.TradingModule.ExecuteHedgeStrategy: one `now` stands for every clock reading in a run, so all groups of one pass share a spot order id.

## Findings

A null reply counts as an accepted contract order. `executeHedgeStrategy` judges the contract leg
by `contractOrder["retCode"].asInt() == 0`. When the request fails in transport or the reply
does not parse, `makeRequest` returns a null JSON value. jsoncpp reads a missing member of a
null value as null, and `asInt()` of null as 0. So a lost contract order counts as filled.

`Trading.NullContractReplyStoredAsWritten` proves the consequence for every such venue, and
`Trading.NullContractReplyExample` shows it on one concrete input. The trade group is stored
with an empty futures id. The spot leg of the pair stays bought with no short contract against it.

The rest of the model uses `Trading.ContractOk`, which accepts only an object reply with `retCode 0`,
through `Trading.HedgeStep`. `Trading.HedgeStepOutcome` and `Trading.FailedHedgeRestoresSpot`
prove the intended outcome about it.

| source | as written | input that shows it | evidently intended | confidence | as-written member | corrected member |
|---|---|---|---|---|---|---|
| src/trading/trading_module.cpp:106 | a null contract reply reads `retCode` 0, so the hedge is stored with an empty futures id and the spot buy is not reversed | `Trading.SilentContractVenue` (spot orders accepted, contract orders unanswered) with `Trading.SampleConfig`, symbol `BTCUSDT`, rate 0.001 | a contract leg that got no answer counts as failed, so the spot buy is sold back and no group is stored | not executed | Trading.NullContractReplyStoredAsWritten, Trading.NullContractReplyExample | Trading.HedgeStep, Trading.HedgeStepOutcome |
