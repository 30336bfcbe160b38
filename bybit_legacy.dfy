/**
 * The older snapshot of the Bybit client (`lib/exchange/bybit_api.cpp`): the URL is the base
 * URL followed by the endpoint with no slash trimming, `getFundingRates` reports the newest
 * funding sample of each pair, `getPositions` sends the symbol only when one is given, and
 * `closePosition` looks at the position list without checking `retCode`.
 */
module BybitLegacy {
  import opened Common
  import opened Strings
  import opened BybitWire
  import SortedMap
  import BybitApi

  /** The URL handed to curl: base, endpoint, and for GET `?` plus a non-empty query. */
  function LegacyUrl(base: string, endpoint: string, verb: string, params: Params): string
  {
    var query := if verb == "GET" then QueryString(params) else "";
    base + endpoint + (if query != "" then "?" + query else "")
  }

  /** The part of the older `makeRequest` that builds the URL and the signed parameter string. */
  method PrepareRequest(base: string, endpoint: string, verb: string, params: Params,
                        json: Params -> string) returns (url: string, paramString: string)
    ensures url == LegacyUrl(base, endpoint, verb, params)
    ensures paramString == BybitApi.SignedParams(verb, params, json)
  {
    url := base + endpoint;
    paramString := "";
    if verb == "GET" {
      paramString := BuildQuery(params);
      if paramString != "" {
        url := url + "?" + paramString;
      }
    } else if verb == "POST" {
      paramString := json(params);
      if paramString != "" && paramString[|paramString| - 1] == '\n' {
        paramString := paramString[..|paramString| - 1];
      }
    }
  }

  /**
   * The two clients build the same URL unless the base URL ends in `/`; then the older one
   * keeps that slash, right before the endpoint.
   */
  lemma UrlDiffersOnlyByTrailingSlash(base: string, endpoint: string, verb: string, params: Params)
    ensures !(|base| > 0 && base[|base| - 1] == '/') ==>
      LegacyUrl(base, endpoint, verb, params) == BybitApi.RequestUrl(base, endpoint, verb, params)
    ensures (|base| > 0 && base[|base| - 1] == '/') ==>
      LegacyUrl(base, endpoint, verb, params) ==
        BybitApi.TrimmedBase(base) + "/" + endpoint + (LegacyUrl(base, endpoint, verb, params)[|base| + |endpoint|..])
  {
    var tail := LegacyUrl(base, endpoint, verb, params)[|base| + |endpoint|..];
    assert LegacyUrl(base, endpoint, verb, params) == base + endpoint + tail;
  }

  /** A GET URL carries a `?` part exactly when there are parameters; there is no other change. */
  lemma LegacyUrlQueryOnlyWithParams(base: string, endpoint: string, verb: string, params: Params)
    ensures verb == "GET" && |params| > 0 ==>
      LegacyUrl(base, endpoint, verb, params) == base + endpoint + "?" + QueryString(params)
    ensures !(verb == "GET" && |params| > 0) ==> LegacyUrl(base, endpoint, verb, params) == base + endpoint
  {
    QueryEmptyIff(params);
  }

  // ---------------------------------------------------------------- getFundingRates (newest sample)

  /** The older history request: `symbol` and `category=linear`, held in key order. */
  function LegacyHistoryRequest(symbol: string): Request
  {
    Request("/v5/market/funding/history", "GET", [("category", "linear"), ("symbol", symbol)])
  }

  /** Those parameters are the map the source fills with `params["symbol"]` and `params["category"]`. */
  lemma LegacyHistoryParamsAsMap(symbol: string)
    ensures LegacyHistoryRequest(symbol).params ==
      SortedMap.Put(SortedMap.Put([], "symbol", symbol), "category", "linear")
    ensures QueryString(LegacyHistoryRequest(symbol).params) == "category=linear&symbol=" + symbol
  {
    SortedMap.PutEmpty("symbol", symbol);
    assert Less("category", "symbol");
    SortedMap.PutFront([("symbol", symbol)], "category", "linear");
    var ps: Params := [("category", "linear"), ("symbol", symbol)];
    var fs := Fields(ps);
    assert Field(("category", "linear")) == "category=linear";
    assert fs == [Field(("category", "linear")), Field(("symbol", symbol))];
    assert Join(fs[1..], '&') == fs[1];
  }

  /** The reply passes the checks: an object, `retCode 0`, an array list that is not empty. */
  predicate Usable(r: Reply<BybitApi.Sample>)
  {
    ListReturned(r) && |r.list.value| > 0
  }

  /**
   * The older `getFundingRates`: the newest sample of every usable reply, in pair order. The
   * `std::stod` of that sample is not caught, so one unparsable newest sample makes the whole
   * call throw: `None`.
   */
  function LegacyRates(pairs: seq<string>, respond: Request -> Reply<BybitApi.Sample>): Option<seq<(string, real)>>
  {
    if |pairs| == 0 then Some([])
    else
      match LegacyRates(pairs[..|pairs| - 1], respond)
      case None => None
      case Some(before) =>
        var symbol := pairs[|pairs| - 1];
        var r := respond(LegacyHistoryRequest(symbol));
        if !Usable(r) then Some(before)
        else if r.list.value[0].None? then None
        else Some(before + [(symbol, r.list.value[0].value)])
  }

  /** The loop of the older `getFundingRates`; `None` stands for the escaping exception. */
  method GetFundingRates(pairs: seq<string>, respond: Request -> Reply<BybitApi.Sample>)
    returns (rates: Option<seq<(string, real)>>)
    ensures rates == LegacyRates(pairs, respond)
  {
    var acc: seq<(string, real)> := [];
    var k := 0;
    while k < |pairs|
      invariant 0 <= k <= |pairs|
      invariant LegacyRates(pairs[..k], respond) == Some(acc)
    {
      var symbol := pairs[k];
      assert pairs[..k + 1][..k] == pairs[..k];
      var response := respond(LegacyHistoryRequest(symbol));
      if response.Object? && response.retCode == 0 && response.list.Some? && |response.list.value| > 0 {
        var newest := response.list.value[0];
        if newest.None? {
          rates := None;
          LegacyRatesFailureSticks(pairs, k + 1, respond);
          return;
        }
        acc := acc + [(symbol, newest.value)];
      }
      k := k + 1;
    }
    assert pairs[..|pairs|] == pairs;
    rates := Some(acc);
  }

  /** Once a prefix of the pairs throws, the whole call throws. */
  lemma {:induction false} LegacyRatesFailureSticks(pairs: seq<string>, k: nat,
                                                    respond: Request -> Reply<BybitApi.Sample>)
    requires k <= |pairs| && LegacyRates(pairs[..k], respond).None?
    ensures LegacyRates(pairs, respond).None?
    decreases |pairs| - k
  {
    if k < |pairs| {
      assert pairs[..k + 1][..k] == pairs[..k];
      LegacyRatesFailureSticks(pairs, k + 1, respond);
    } else {
      assert pairs[..k] == pairs;
    }
  }

  /** The call returns exactly when no usable reply has an unparsable newest sample. */
  lemma {:induction false} LegacyRatesDefinedIff(pairs: seq<string>, respond: Request -> Reply<BybitApi.Sample>)
    ensures LegacyRates(pairs, respond).Some? <==>
      forall i :: 0 <= i < |pairs| && Usable(respond(LegacyHistoryRequest(pairs[i]))) ==>
        respond(LegacyHistoryRequest(pairs[i])).list.value[0].Some?
    decreases |pairs|
  {
    if |pairs| > 0 {
      var init := pairs[..|pairs| - 1];
      LegacyRatesDefinedIff(init, respond);
      assert forall i :: 0 <= i < |init| ==> init[i] == pairs[i];
    }
  }

  /**
   * When the call returns, a pair is reported with x exactly when its reply was usable and its
   * newest sample is x.
   */
  lemma {:induction false} LegacyRatesMembers(pairs: seq<string>, respond: Request -> Reply<BybitApi.Sample>,
                                              symbol: string, x: real)
    requires LegacyRates(pairs, respond).Some?
    ensures (symbol, x) in LegacyRates(pairs, respond).value <==>
      symbol in pairs && Usable(respond(LegacyHistoryRequest(symbol))) &&
      respond(LegacyHistoryRequest(symbol)).list.value[0] == Some(x)
    decreases |pairs|
  {
    if |pairs| > 0 {
      var init := pairs[..|pairs| - 1];
      LegacyRatesMembers(init, respond, symbol, x);
      assert pairs == init + [pairs[|pairs| - 1]];
    }
  }

  /** The reported symbols keep the configured order. */
  lemma {:induction false} LegacyRatesInPairOrder(pairs: seq<string>, respond: Request -> Reply<BybitApi.Sample>)
    requires LegacyRates(pairs, respond).Some?
    ensures Subsequence(BybitApi.Symbols(LegacyRates(pairs, respond).value), pairs)
    decreases |pairs|
  {
    if |pairs| > 0 {
      var init := pairs[..|pairs| - 1];
      var symbol := pairs[|pairs| - 1];
      LegacyRatesInPairOrder(init, respond);
      var before := LegacyRates(init, respond).value;
      assert pairs == init + [symbol];
      var r := respond(LegacyHistoryRequest(symbol));
      if Usable(r) {
        var x := r.list.value[0].value;
        assert LegacyRates(pairs, respond).value == before + [(symbol, x)];
        BybitApi.SymbolsSnoc(before, (symbol, x));
        SubsequenceKeep(BybitApi.Symbols(before), init, symbol);
      } else {
        assert LegacyRates(pairs, respond).value == before;
        SubsequenceSkip(BybitApi.Symbols(before), init, symbol);
      }
    }
  }

  /**
   * The newest-sample rule is the weighted score with the single period 1 of weight 1: both
   * give the newest sample when it parsed.
   */
  lemma NewestSampleIsUnitPeriodScore(list: seq<BybitApi.Sample>)
    requires |list| > 0 && list[0].Some?
    ensures BybitApi.Score(list, [1], [1.0]) == list[0]
  {
    NewestWindowMean(list);
    var ms := BybitApi.Means(list, [1]);
    assert ms == [list[0]];
    SingleUnitWeight(list[0].value);
  }

  /** The average of a one-sample window is that sample. */
  lemma NewestWindowMean(list: seq<BybitApi.Sample>)
    requires |list| > 0 && list[0].Some?
    ensures BybitApi.WindowMean(list, 1) == list[0]
  {
    var v := list[0].value;
    var w := BybitApi.Window(list, 1);
    assert w == [list[0]];
    assert w[..0] == [];
    assert BybitApi.Parsed(w) == [v];
    assert [v][..0] == [];
    assert BybitApi.Sum([v]) == v;
  }

  /** One mean of weight 1 combines to itself. */
  lemma SingleUnitWeight(v: real)
    ensures BybitApi.Combine([Some(v)], [1.0]) == Some(v)
  {
    assert BybitApi.RealizedWeight([Some(v)], [1.0], 1) == 1.0;
    assert BybitApi.WeightedSum([Some(v)], [1.0], 1) == v;
  }

  // ---------------------------------------------------------------- getPositions, closePosition

  /** The older `getPositions(symbol)` parameters, held in key order: `category`, then the symbol when non-empty. */
  function LegacyPositionsParams(symbol: string): Params
  {
    [("category", "linear")] + (if symbol == "" then [] else [("symbol", symbol)])
  }

  /** Those parameters are the `std::map` the source fills: `symbol` when given, then `category`. */
  lemma LegacyPositionsParamsAsMap(symbol: string)
    ensures var base: Params := if symbol != "" then SortedMap.Put([], "symbol", symbol) else [];
      LegacyPositionsParams(symbol) == SortedMap.Put(base, "category", "linear")
  {
    if symbol == "" {
      SortedMap.PutEmpty("category", "linear");
    } else {
      SortedMap.PutEmpty("symbol", symbol);
      assert Less("category", "symbol");
      SortedMap.PutFront([("symbol", symbol)], "category", "linear");
    }
  }

  /** `category=linear` is always sent, `symbol` exactly when it is non-empty, and nothing else. */
  lemma LegacyPositionsParamsSent(symbol: string)
    ensures SortedMap.Sorted(LegacyPositionsParams(symbol))
    ensures SortedMap.Get(LegacyPositionsParams(symbol), "category") == Some("linear")
    ensures SortedMap.Get(LegacyPositionsParams(symbol), "symbol") == if symbol == "" then None else Some(symbol)
    ensures SortedMap.Keys(LegacyPositionsParams(symbol)) == {"category"} + (if symbol == "" then {} else {"symbol"})
  {
    LegacyPositionsParamsAsMap(symbol);
    assert SortedMap.Keys<string>([]) == {};
    assert SortedMap.Get<string>([], "symbol") == None;
  }

  /** The two query strings the older `getPositions` can send. */
  lemma LegacyPositionsQuery(symbol: string)
    ensures symbol == "" ==> QueryString(LegacyPositionsParams(symbol)) == "category=linear"
    ensures symbol != "" ==> QueryString(LegacyPositionsParams(symbol)) == "category=linear&symbol=" + symbol
  {
    assert Field(("category", "linear")) == "category=linear";
    if symbol == "" {
      assert Fields([("category", "linear")]) == [Field(("category", "linear"))];
    } else {
      var ps: Params := [("category", "linear"), ("symbol", symbol)];
      assert LegacyPositionsParams(symbol) == ps;
      var fs := Fields(ps);
      assert fs == [Field(("category", "linear")), Field(("symbol", symbol))];
      assert Join(fs[1..], '&') == fs[1];
    }
  }

  /**
   * The older `closePosition`: only null, a missing list or an empty list stop it; the first
   * position is closed on the opposite side for its full size, whatever the `retCode`.
   */
  function LegacyCloseOrder(reply: Reply<Position>): (order: Option<(string, real)>)
    ensures order.Some? <==> reply.Object? && reply.list.Some? && |reply.list.value| > 0
    ensures order.Some? ==>
      order.value == (CloseSide(reply.list.value[0].side), reply.list.value[0].size)
  {
    if reply.Object? && reply.list.Some? && |reply.list.value| > 0 then
      var first := reply.list.value[0];
      Some((CloseSide(first.side), first.size))
    else None
  }

  /**
   * The two `closePosition` versions agree on every reply with `retCode 0`; on an error reply
   * that still lists a position only the older one sends a closing order.
   */
  lemma CloseOrderVersions(reply: Reply<Position>)
    ensures reply.Object? && reply.retCode == 0 ==> LegacyCloseOrder(reply) == BybitApi.CloseOrder(reply)
    ensures reply.Object? && reply.retCode != 0 ==> BybitApi.CloseOrder(reply).None?
    ensures reply.NotObject? ==> LegacyCloseOrder(reply).None? && BybitApi.CloseOrder(reply).None?
  {
  }
}
