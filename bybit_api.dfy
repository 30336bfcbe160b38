/**
 * The current Bybit REST client (`src/exchange/bybit_api.cpp`): where a request goes, the
 * weighted funding-rate score of `getFundingRates`, the instrument filter of `getInstruments`,
 * the parameters of `getPositions` and the decision of `closePosition`.
 */
module BybitApi {
  import opened Common
  import opened Strings
  import opened BybitWire
  import SortedMap

  // ---------------------------------------------------------------- makeRequest

  /** The configured base URL without one trailing slash. */
  function TrimmedBase(base: string): (r: string)
    ensures (|base| > 0 && base[|base| - 1] == '/') ==> r + "/" == base
    ensures !(|base| > 0 && base[|base| - 1] == '/') ==> r == base
  {
    if |base| > 0 && base[|base| - 1] == '/' then base[..|base| - 1] else base
  }

  /** The URL handed to curl: trimmed base, endpoint, and for GET `?` plus a non-empty query. */
  function RequestUrl(base: string, endpoint: string, verb: string, params: Params): string
  {
    var query := if verb == "GET" then QueryString(params) else "";
    TrimmedBase(base) + endpoint + (if query != "" then "?" + query else "")
  }

  /**
   * The parameter string that is signed: the query for GET, the serialised JSON body (an
   * input here, `json`) without its trailing newline for POST, nothing for other verbs.
   */
  function SignedParams(verb: string, params: Params, json: Params -> string): string
  {
    if verb == "GET" then QueryString(params)
    else if verb == "POST" then StripTrailingNewline(json(params))
    else ""
  }

  /** The part of `makeRequest` that builds the URL and the parameter string. */
  method PrepareRequest(base: string, endpoint: string, verb: string, params: Params,
                        json: Params -> string) returns (url: string, paramString: string)
    ensures url == RequestUrl(base, endpoint, verb, params)
    ensures paramString == SignedParams(verb, params, json)
  {
    url := base;
    if url != "" && url[|url| - 1] == '/' {
      url := url[..|url| - 1];
    }
    url := url + endpoint;
    paramString := "";
    assert url == TrimmedBase(base) + endpoint;
    if verb == "GET" {
      paramString := BuildQuery(params);
      if paramString != "" {
        assert url + "?" + paramString == url + ("?" + paramString);
        url := url + "?" + paramString;
      }
    } else if verb == "POST" {
      paramString := json(params);
      if paramString != "" && paramString[|paramString| - 1] == '\n' {
        paramString := paramString[..|paramString| - 1];
      }
    }
  }

  /** A GET URL carries a `?` part exactly when there are parameters; other verbs never do. */
  lemma UrlQueryOnlyWithParams(base: string, endpoint: string, verb: string, params: Params)
    ensures verb == "GET" && |params| > 0 ==>
      RequestUrl(base, endpoint, verb, params) == TrimmedBase(base) + endpoint + "?" + QueryString(params)
    ensures !(verb == "GET" && |params| > 0) ==>
      RequestUrl(base, endpoint, verb, params) == TrimmedBase(base) + endpoint
  {
    QueryEmptyIff(params);
  }

  // ---------------------------------------------------------------- getFundingRates

  /** `std::stod(list[j]["fundingRate"].asString())`: `None` when it throws and the sample is skipped. */
  type Sample = Option<real>

  /** The samples that parsed, in order. */
  function Parsed(s: seq<Sample>): (p: seq<real>)
    ensures |p| <= |s|
  {
    if |s| == 0 then []
    else Parsed(s[..|s| - 1]) + (if s[|s| - 1].Some? then [s[|s| - 1].value] else [])
  }

  function Sum(p: seq<real>): real
  {
    if |p| == 0 then 0.0 else Sum(p[..|p| - 1]) + p[|p| - 1]
  }

  lemma ParsedSnoc(s: seq<Sample>, j: nat)
    requires j < |s|
    ensures s[j].Some? ==> Parsed(s[..j + 1]) == Parsed(s[..j]) + [s[j].value]
    ensures s[j].None? ==> Parsed(s[..j + 1]) == Parsed(s[..j])
  {
    assert s[..j + 1][..j] == s[..j];
    assert Parsed(s[..j]) + [] == Parsed(s[..j]);
  }

  lemma SumSnoc(p: seq<real>, x: real)
    ensures Sum(p + [x]) == Sum(p) + x
  {
    assert (p + [x])[..|p|] == p;
  }

  /** The entries a period of `period` samples reads: the newest `min(period, |list|)`. */
  function Window(list: seq<Sample>, period: int): (w: seq<Sample>)
    ensures |w| == if period <= 0 then 0 else Min(period, |list|)
    ensures w == list[..|w|]
  {
    list[..if period <= 0 then 0 else Min(period, |list|)]
  }

  /** The period average, or `None` when no sample of the window parsed. */
  function WindowMean(list: seq<Sample>, period: int): Option<real>
  {
    var p := Parsed(Window(list, period));
    if |p| == 0 then None else Some(Sum(p) / (|p| as real))
  }

  /** The average of every configured period, in configuration order. */
  function Means(list: seq<Sample>, periods: seq<int>): (ms: seq<Option<real>>)
    ensures |ms| == |periods|
    ensures forall i :: 0 <= i < |periods| ==> ms[i] == WindowMean(list, periods[i])
  {
    seq(|periods|, i requires 0 <= i < |periods| => WindowMean(list, periods[i]))
  }

  /** `weightedScore` after the first k periods: each period that had a sample adds mean * weight. */
  function WeightedSum(means: seq<Option<real>>, weights: seq<real>, k: nat): real
    requires k <= |means| == |weights|
  {
    if k == 0 then 0.0
    else
      WeightedSum(means, weights, k - 1) +
      (match means[k - 1] case Some(m) => m * weights[k - 1] case None => 0.0)
  }

  /** `totalWeight` after the first k periods: only periods that had a sample count. */
  function RealizedWeight(means: seq<Option<real>>, weights: seq<real>, k: nat): real
    requires k <= |means| == |weights|
  {
    if k == 0 then 0.0
    else RealizedWeight(means, weights, k - 1) + (if means[k - 1].Some? then weights[k - 1] else 0.0)
  }

  /** The weighted mean of the period averages, defined when the realized weight is positive. */
  function Combine(means: seq<Option<real>>, weights: seq<real>): Option<real>
    requires |means| == |weights|
  {
    var total := RealizedWeight(means, weights, |means|);
    if total > 0.0 then Some(WeightedSum(means, weights, |means|) / total) else None
  }

  /** The score of one symbol's history. */
  function Score(list: seq<Sample>, periods: seq<int>, weights: seq<real>): Option<real>
    requires |periods| == |weights|
  {
    Combine(Means(list, periods), weights)
  }

  /** The inner loop of `getFundingRates`: average of the parsable samples of one period. */
  method ComputePeriodAverage(list: seq<Sample>, periodLimit: int) returns (avg: Option<real>)
    ensures avg == WindowMean(list, periodLimit)
  {
    var periodSum := 0.0;
    var validCount := 0;
    var j := 0;
    while j < |list| && j < periodLimit
      invariant 0 <= j <= |list|
      invariant j == 0 || j <= periodLimit
      invariant periodSum == Sum(Parsed(list[..j]))
      invariant validCount == |Parsed(list[..j])|
    {
      ParsedSnoc(list, j);
      if list[j].Some? {
        SumSnoc(Parsed(list[..j]), list[j].value);
        periodSum := periodSum + list[j].value;
        validCount := validCount + 1;
      } else {
        assert Parsed(list[..j + 1]) == Parsed(list[..j]);
      }
      j := j + 1;
    }
    assert list[..j] == Window(list, periodLimit);
    if validCount > 0 {
      avg := Some(periodSum / (validCount as real));
    } else {
      avg := None;
    }
  }

  /** One iteration of the period loop: a period with a sample adds its weighted mean and weight. */
  method AddPeriod(ghost means: seq<Option<real>>, weights: seq<real>, i: nat, avg: Option<real>,
                   weightedScore: real, totalWeight: real) returns (weightedScore': real, totalWeight': real)
    requires i < |means| == |weights| && avg == means[i]
    requires weightedScore == WeightedSum(means, weights, i)
    requires totalWeight == RealizedWeight(means, weights, i)
    ensures weightedScore' == WeightedSum(means, weights, i + 1)
    ensures totalWeight' == RealizedWeight(means, weights, i + 1)
  {
    weightedScore', totalWeight' := weightedScore, totalWeight;
    if avg.Some? {
      weightedScore' := weightedScore + avg.value * weights[i];
      totalWeight' := totalWeight + weights[i];
    }
  }

  /** The loop over the configured periods for one symbol. */
  method ComputeScore(list: seq<Sample>, periods: seq<int>, weights: seq<real>) returns (score: Option<real>)
    requires |periods| == |weights|
    ensures score == Score(list, periods, weights)
  {
    ghost var means := Means(list, periods);
    var weightedScore := 0.0;
    var totalWeight := 0.0;
    var i := 0;
    while i < |periods|
      invariant 0 <= i <= |periods|
      invariant weightedScore == WeightedSum(means, weights, i)
      invariant totalWeight == RealizedWeight(means, weights, i)
    {
      var avg := ComputePeriodAverage(list, periods[i]);
      weightedScore, totalWeight := AddPeriod(means, weights, i, avg, weightedScore, totalWeight);
      i := i + 1;
    }
    if totalWeight > 0.0 {
      score := Some(weightedScore / totalWeight);
    } else {
      score := None;
    }
  }

  /** `*std::max_element(periods)`. */
  function MaxPeriod(periods: seq<int>): (m: int)
    requires |periods| > 0
    ensures m in periods
    ensures forall i :: 0 <= i < |periods| ==> periods[i] <= m
  {
    if |periods| == 1 then periods[0]
    else
      var rest := MaxPeriod(periods[..|periods| - 1]);
      assert forall i :: 0 <= i < |periods| - 1 ==> periods[i] == periods[..|periods| - 1][i];
      if periods[|periods| - 1] > rest then periods[|periods| - 1] else rest
  }

  /** The parameters of one funding-history request, held in key order. */
  function HistoryParams(symbol: string, limit: string): Params
  {
    [("category", "linear"), ("limit", limit), ("symbol", symbol)]
  }

  /** The history request for one pair; `limit` is the decimal text of the longest period. */
  function HistoryRequest(symbol: string, maxPeriod: int): Request
  {
    Request("/v5/market/funding/history", "GET", HistoryParams(symbol, IntToString(maxPeriod)))
  }

  /** The request asks for `category=linear`, `limit=<maxPeriod>` and the symbol, in that key order. */
  lemma HistoryRequestQuery(symbol: string, limit: string)
    ensures QueryString(HistoryParams(symbol, limit)) == "category=linear&limit=" + limit + "&symbol=" + symbol
  {
    QueryOfThree(("category", "linear"), ("limit", limit), ("symbol", symbol));
    assert Field(("category", "linear")) + "&" + Field(("limit", limit)) == "category=linear&limit=" + limit;
  }

  /**
   * Those parameters are the `std::map` the source fills with `params["symbol"]`,
   * `params["category"]` and `params["limit"]`, in that order.
   */
  lemma HistoryParamsAsMap(symbol: string, limit: string)
    ensures HistoryParams(symbol, limit) ==
      SortedMap.Put(SortedMap.Put(SortedMap.Put([], "symbol", symbol), "category", "linear"), "limit", limit)
  {
    var p1: Params := [("symbol", symbol)];
    SortedMap.PutEmpty("symbol", symbol);
    assert Less("category", "symbol");
    SortedMap.PutFront(p1, "category", "linear");
    var p2: Params := [("category", "linear")] + p1;
    assert Less("category", "limit") && Less("limit", "symbol");
    SortedMap.PutPastFirst(p2, "limit", limit);
    assert p2[1..] == p1;
    SortedMap.PutFront(p1, "limit", limit);
  }

  lemma QueryOfThree(a: (string, string), b: (string, string), c: (string, string))
    ensures QueryString([a, b, c]) == Field(a) + "&" + Field(b) + "&" + Field(c)
  {
    var fs := Fields([a, b, c]);
    assert fs == [Field(a), Field(b), Field(c)];
    assert fs[1..][1..] == fs[2..];
    assert Join(fs[2..], '&') == Field(c);
    assert Join(fs[1..], '&') == Field(b) + "&" + Field(c);
  }

  /** The scoring configuration is usable: periods and weights non-empty and of equal length. */
  predicate ScoringConfigured(periods: seq<int>, weights: seq<real>)
  {
    |periods| > 0 && |weights| > 0 && |periods| == |weights|
  }

  /** The reply passes the checks of `getFundingRates`: an object, `retCode 0`, a non-empty list. */
  predicate HistoryUsable(r: Reply<Sample>)
  {
    ListReturned(r) && |r.list.value| > 0
  }

  function SymbolScore(r: Reply<Sample>, periods: seq<int>, weights: seq<real>): Option<real>
    requires |periods| == |weights|
  {
    if HistoryUsable(r) then Score(r.list.value, periods, weights) else None
  }

  /** The score `getFundingRates` computes for one pair from the reply to its history request. */
  function PairScore(symbol: string, periods: seq<int>, weights: seq<real>,
                     respond: Request -> Reply<Sample>): Option<real>
  {
    if ScoringConfigured(periods, weights)
    then SymbolScore(respond(HistoryRequest(symbol, MaxPeriod(periods))), periods, weights)
    else None
  }

  function Scorer(periods: seq<int>, weights: seq<real>, respond: Request -> Reply<Sample>): string -> Option<real>
  {
    symbol => PairScore(symbol, periods, weights, respond)
  }

  /** The pairs that have a score, each with it, in pair order. */
  function Collect(pairs: seq<string>, score: string -> Option<real>): seq<(string, real)>
  {
    if |pairs| == 0 then []
    else
      var symbol := pairs[|pairs| - 1];
      Collect(pairs[..|pairs| - 1], score) + (if score(symbol).Some? then [(symbol, score(symbol).value)] else [])
  }

  /** What `getFundingRates` returns for the given trading pairs, one reply per request. */
  function FundingRates(pairs: seq<string>, periods: seq<int>, weights: seq<real>,
                        respond: Request -> Reply<Sample>): seq<(string, real)>
  {
    if !ScoringConfigured(periods, weights) then [] else Collect(pairs, Scorer(periods, weights, respond))
  }

  lemma CollectSnoc(pairs: seq<string>, k: nat, score: string -> Option<real>)
    requires k < |pairs|
    ensures Collect(pairs[..k + 1], score) ==
      Collect(pairs[..k], score) + (if score(pairs[k]).Some? then [(pairs[k], score(pairs[k]).value)] else [])
  {
    assert pairs[..k + 1][..k] == pairs[..k];
  }

  /** `getFundingRates`: every configured pair is requested and scored; failures are skipped. */
  method GetFundingRates(pairs: seq<string>, periods: seq<int>, weights: seq<real>,
                         respond: Request -> Reply<Sample>) returns (rates: seq<(string, real)>)
    ensures rates == FundingRates(pairs, periods, weights, respond)
    ensures !ScoringConfigured(periods, weights) ==> rates == []
  {
    rates := [];
    if |periods| == 0 || |weights| == 0 || |periods| != |weights| {
      return;
    }
    var maxPeriod := MaxPeriod(periods);
    ghost var scorer := Scorer(periods, weights, respond);
    var k := 0;
    while k < |pairs|
      invariant 0 <= k <= |pairs|
      invariant rates == Collect(pairs[..k], scorer)
    {
      var symbol := pairs[k];
      var response := respond(HistoryRequest(symbol, maxPeriod));
      var score := None;
      if response.Object? && response.retCode == 0 && response.list.Some? && |response.list.value| > 0 {
        score := ComputeScore(response.list.value, periods, weights);
      }
      assert score == scorer(symbol);
      CollectSnoc(pairs, k, scorer);
      if score.Some? {
        rates := rates + [(symbol, score.value)];
      }
      k := k + 1;
    }
    assert pairs[..|pairs|] == pairs;
  }

  // ---------------------------------------------------------------- properties of the score

  lemma {:induction false} ParsedFrom(s: seq<Sample>, v: real)
    requires v in Parsed(s)
    ensures exists j :: 0 <= j < |s| && s[j] == Some(v)
    decreases |s|
  {
    var init := s[..|s| - 1];
    if v in Parsed(init) {
      ParsedFrom(init, v);
      var j :| 0 <= j < |init| && init[j] == Some(v);
      assert s[j] == Some(v);
    } else {
      assert s[|s| - 1] == Some(v);
    }
  }

  /** Every sample that parses is counted. */
  lemma {:induction false} ParsedComplete(s: seq<Sample>, j: nat)
    requires j < |s| && s[j].Some?
    ensures s[j].value in Parsed(s)
    decreases |s|
  {
    if j < |s| - 1 {
      var init := s[..|s| - 1];
      assert init[j] == s[j];
      ParsedComplete(init, j);
    }
  }

  /** A value is counted exactly when some sample parses to it. */
  lemma ParsedMembers(s: seq<Sample>, v: real)
    ensures v in Parsed(s) <==> exists j :: 0 <= j < |s| && s[j] == Some(v)
  {
    if v in Parsed(s) {
      ParsedFrom(s, v);
    }
    if exists j :: 0 <= j < |s| && s[j] == Some(v) {
      var j :| 0 <= j < |s| && s[j] == Some(v);
      ParsedComplete(s, j);
    }
  }

  lemma {:induction false} ParsedEmptyIff(s: seq<Sample>)
    ensures |Parsed(s)| == 0 <==> forall j :: 0 <= j < |s| ==> s[j].None?
    decreases |s|
  {
    if |s| > 0 {
      ParsedEmptyIff(s[..|s| - 1]);
      assert forall j :: 0 <= j < |s| - 1 ==> s[j] == s[..|s| - 1][j];
    }
  }

  lemma {:induction false} SumBounds(p: seq<real>, lo: real, hi: real)
    requires forall v :: v in p ==> lo <= v <= hi
    ensures lo * (|p| as real) <= Sum(p) <= hi * (|p| as real)
    decreases |p|
  {
    if |p| > 0 {
      var init := p[..|p| - 1];
      assert forall v :: v in init ==> v in p;
      SumBounds(init, lo, hi);
      var last := p[|p| - 1];
      assert last in p;
      var n := |init| as real;
      assert |p| as real == n + 1.0;
      assert Sum(p) == Sum(init) + last;
      assert lo * (n + 1.0) == lo * n + lo;
      assert hi * (n + 1.0) == hi * n + hi;
    }
  }

  lemma MeanBounds(total: real, n: real, lo: real, hi: real)
    requires n > 0.0
    requires lo * n <= total <= hi * n
    ensures lo <= total / n <= hi
  {
  }

  /** A period average lies between the smallest and the largest sample it reads. */
  lemma WindowMeanBounds(list: seq<Sample>, period: int, lo: real, hi: real)
    requires forall j :: 0 <= j < |list| && j < period && list[j].Some? ==> lo <= list[j].value <= hi
    ensures WindowMean(list, period).Some? ==> lo <= WindowMean(list, period).value <= hi
  {
    var p := Parsed(Window(list, period));
    WindowSamplesWithin(list, period, lo, hi);
    if |p| > 0 {
      SumBounds(p, lo, hi);
      MeanBounds(Sum(p), |p| as real, lo, hi);
    }
  }

  /** The samples a period average reads are samples of its window. */
  lemma WindowSamplesWithin(list: seq<Sample>, period: int, lo: real, hi: real)
    requires forall j :: 0 <= j < |list| && j < period && list[j].Some? ==> lo <= list[j].value <= hi
    ensures forall v :: v in Parsed(Window(list, period)) ==> lo <= v <= hi
  {
    var w := Window(list, period);
    forall v | v in Parsed(w) ensures lo <= v <= hi {
      ParsedFrom(w, v);
    }
  }

  /** A period contributes to the score exactly when a sample of its window parsed. */
  lemma WindowMeanDefinedIff(list: seq<Sample>, period: int)
    ensures WindowMean(list, period).Some? <==>
      exists j :: 0 <= j < |list| && j < period && list[j].Some?
  {
    var w := Window(list, period);
    ParsedEmptyIff(w);
    assert forall j :: 0 <= j < |w| ==> w[j] == list[j];
  }

  /** Every parsed sample among the newest `n` entries lies in [lo, hi]. */
  ghost predicate SamplesWithin(list: seq<Sample>, n: int, lo: real, hi: real)
  {
    forall j :: 0 <= j < |list| && j < n && list[j].Some? ==> lo <= list[j].value <= hi
  }

  /** Adding a term `m * w` with lo <= m and w >= 0 keeps the weighted sum above lo times the weight. */
  lemma StepLower(r: real, ws: real, w: real, m: real, lo: real)
    requires w >= 0.0 && lo <= m && lo * r <= ws
    ensures lo * (r + w) <= ws + m * w
  {
    assert lo * w <= m * w by { assert (m - lo) * w >= 0.0; }
    assert lo * (r + w) == lo * r + lo * w;
  }

  lemma StepUpper(r: real, ws: real, w: real, m: real, hi: real)
    requires w >= 0.0 && m <= hi && ws <= hi * r
    ensures ws + m * w <= hi * (r + w)
  {
    assert m * w <= hi * w by { assert (hi - m) * w >= 0.0; }
    assert hi * (r + w) == hi * r + hi * w;
  }

  lemma {:induction false} WeightedSumLower(means: seq<Option<real>>, weights: seq<real>, k: nat, lo: real)
    requires k <= |means| == |weights|
    requires forall i :: 0 <= i < |weights| ==> weights[i] >= 0.0
    requires forall i :: 0 <= i < |means| && means[i].Some? ==> lo <= means[i].value
    ensures lo * RealizedWeight(means, weights, k) <= WeightedSum(means, weights, k)
  {
    if k > 0 {
      WeightedSumLower(means, weights, k - 1, lo);
      if means[k - 1].Some? {
        StepLower(RealizedWeight(means, weights, k - 1), WeightedSum(means, weights, k - 1),
                  weights[k - 1], means[k - 1].value, lo);
      }
    }
  }

  lemma {:induction false} WeightedSumUpper(means: seq<Option<real>>, weights: seq<real>, k: nat, hi: real)
    requires k <= |means| == |weights|
    requires forall i :: 0 <= i < |weights| ==> weights[i] >= 0.0
    requires forall i :: 0 <= i < |means| && means[i].Some? ==> means[i].value <= hi
    ensures WeightedSum(means, weights, k) <= hi * RealizedWeight(means, weights, k)
  {
    if k > 0 {
      WeightedSumUpper(means, weights, k - 1, hi);
      if means[k - 1].Some? {
        StepUpper(RealizedWeight(means, weights, k - 1), WeightedSum(means, weights, k - 1),
                  weights[k - 1], means[k - 1].value, hi);
      }
    }
  }

  /** With non-negative weights the weighted mean lies between the smallest and largest mean. */
  lemma CombineBounds(means: seq<Option<real>>, weights: seq<real>, lo: real, hi: real)
    requires |means| == |weights|
    requires forall i :: 0 <= i < |weights| ==> weights[i] >= 0.0
    requires forall i :: 0 <= i < |means| && means[i].Some? ==> lo <= means[i].value <= hi
    ensures Combine(means, weights).Some? ==> lo <= Combine(means, weights).value <= hi
  {
    WeightedSumLower(means, weights, |means|, lo);
    WeightedSumUpper(means, weights, |means|, hi);
    var total := RealizedWeight(means, weights, |means|);
    if total > 0.0 {
      MeanBounds(WeightedSum(means, weights, |means|), total, lo, hi);
    }
  }

  /**
   * With non-negative weights the score lies between the smallest and the largest sample
   * that any period could have read (the newest `maxPeriod` entries).
   */
  lemma ScoreBounds(list: seq<Sample>, periods: seq<int>, weights: seq<real>, lo: real, hi: real)
    requires ScoringConfigured(periods, weights)
    requires forall i :: 0 <= i < |weights| ==> weights[i] >= 0.0
    requires SamplesWithin(list, MaxPeriod(periods), lo, hi)
    ensures Score(list, periods, weights).Some? ==> lo <= Score(list, periods, weights).value <= hi
  {
    var ms := Means(list, periods);
    forall i | 0 <= i < |ms| && ms[i].Some? ensures lo <= ms[i].value <= hi {
      assert periods[i] <= MaxPeriod(periods);
      WindowMeanBounds(list, periods[i], lo, hi);
    }
    CombineBounds(ms, weights, lo, hi);
  }

  lemma {:induction false} WeightedSumOfConstant(means: seq<Option<real>>, weights: seq<real>, k: nat, c: real)
    requires k <= |means| == |weights|
    requires forall i :: 0 <= i < |means| && means[i].Some? ==> means[i].value == c
    ensures WeightedSum(means, weights, k) == c * RealizedWeight(means, weights, k)
  {
    if k > 0 {
      WeightedSumOfConstant(means, weights, k - 1, c);
      var r := RealizedWeight(means, weights, k - 1);
      assert c * (r + weights[k - 1]) == c * r + c * weights[k - 1];
    }
  }

  /** If every sample equals c the score is c, whatever the weights. */
  lemma ScoreOfConstant(list: seq<Sample>, periods: seq<int>, weights: seq<real>, c: real)
    requires |periods| == |weights|
    requires forall j :: 0 <= j < |list| && list[j].Some? ==> list[j].value == c
    ensures Score(list, periods, weights).Some? ==> Score(list, periods, weights).value == c
  {
    MeansOfConstant(list, periods, c);
    CombineOfConstant(Means(list, periods), weights, c);
  }

  /** Weighting means that all equal c gives c. */
  lemma CombineOfConstant(means: seq<Option<real>>, weights: seq<real>, c: real)
    requires |means| == |weights|
    requires forall i :: 0 <= i < |means| && means[i].Some? ==> means[i].value == c
    ensures Combine(means, weights).Some? ==> Combine(means, weights).value == c
  {
    WeightedSumOfConstant(means, weights, |means|, c);
    var total := RealizedWeight(means, weights, |means|);
    if total > 0.0 {
      ScaledQuotient(WeightedSum(means, weights, |means|), c, total);
    }
  }

  /** If every sample equals c, so does every period average that exists. */
  lemma MeansOfConstant(list: seq<Sample>, periods: seq<int>, c: real)
    requires forall j :: 0 <= j < |list| && list[j].Some? ==> list[j].value == c
    ensures forall i :: 0 <= i < |periods| && Means(list, periods)[i].Some? ==> Means(list, periods)[i].value == c
  {
    forall i | 0 <= i < |periods| && WindowMean(list, periods[i]).Some?
      ensures WindowMean(list, periods[i]).value == c
    {
      WindowMeanBounds(list, periods[i], c, c);
    }
  }

  lemma ScaledQuotient(sum: real, c: real, t: real)
    requires t > 0.0 && sum == c * t
    ensures sum / t == c
  {
  }

  lemma {:induction false} RealizedWeightPositiveIff(means: seq<Option<real>>, weights: seq<real>, k: nat)
    requires k <= |means| == |weights|
    requires forall i :: 0 <= i < |weights| ==> weights[i] >= 0.0
    ensures RealizedWeight(means, weights, k) >= 0.0
    ensures RealizedWeight(means, weights, k) > 0.0 <==>
      exists i :: 0 <= i < k && means[i].Some? && weights[i] > 0.0
  {
    if k > 0 {
      RealizedWeightPositiveIff(means, weights, k - 1);
    }
  }

  /** With non-negative weights, a score exists iff some period with positive weight had a sample. */
  lemma ScoreDefinedIff(list: seq<Sample>, periods: seq<int>, weights: seq<real>)
    requires |periods| == |weights|
    requires forall i :: 0 <= i < |weights| ==> weights[i] >= 0.0
    ensures Score(list, periods, weights).Some? <==>
      exists i :: 0 <= i < |periods| && WindowMean(list, periods[i]).Some? && weights[i] > 0.0
  {
    var ms := Means(list, periods);
    RealizedWeightPositiveIff(ms, weights, |ms|);
    assert forall i :: 0 <= i < |ms| ==> ms[i] == WindowMean(list, periods[i]);
  }

  function Symbols(rates: seq<(string, real)>): (s: seq<string>)
    ensures |s| == |rates| && forall i :: 0 <= i < |rates| ==> s[i] == rates[i].0
  {
    if |rates| == 0 then [] else Symbols(rates[..|rates| - 1]) + [rates[|rates| - 1].0]
  }

  lemma SymbolsSnoc(rates: seq<(string, real)>, e: (string, real))
    ensures Symbols(rates + [e]) == Symbols(rates) + [e.0]
  {
    assert (rates + [e])[..|rates|] == rates;
  }

  /** The collected symbols are a subsequence of the pairs, in the same order. */
  lemma {:induction false} CollectInOrder(pairs: seq<string>, score: string -> Option<real>)
    ensures Subsequence(Symbols(Collect(pairs, score)), pairs)
    decreases |pairs|
  {
    if |pairs| > 0 {
      var init := pairs[..|pairs| - 1];
      var symbol := pairs[|pairs| - 1];
      CollectInOrder(init, score);
      var before := Collect(init, score);
      assert pairs == init + [symbol];
      if score(symbol).Some? {
        assert Collect(pairs, score) == before + [(symbol, score(symbol).value)];
        SymbolsSnoc(before, (symbol, score(symbol).value));
        SubsequenceKeep(Symbols(before), init, symbol);
      } else {
        assert Collect(pairs, score) == before;
        SubsequenceSkip(Symbols(before), init, symbol);
      }
    }
  }

  /** A pair is collected with x exactly when it is one of the pairs and scores x. */
  lemma {:induction false} CollectMembers(pairs: seq<string>, score: string -> Option<real>, symbol: string, x: real)
    ensures (symbol, x) in Collect(pairs, score) <==> symbol in pairs && score(symbol) == Some(x)
    decreases |pairs|
  {
    if |pairs| > 0 {
      var init := pairs[..|pairs| - 1];
      CollectMembers(init, score, symbol, x);
      assert pairs == init + [pairs[|pairs| - 1]];
    }
  }

  /** The scored symbols are a subsequence of the configured pairs, in the same order. */
  lemma FundingRatesInPairOrder(pairs: seq<string>, periods: seq<int>, weights: seq<real>,
                                respond: Request -> Reply<Sample>)
    ensures Subsequence(Symbols(FundingRates(pairs, periods, weights, respond)), pairs)
  {
    if ScoringConfigured(periods, weights) {
      CollectInOrder(pairs, Scorer(periods, weights, respond));
    } else {
      assert Symbols([]) == [];
      SubsequenceEmpty(pairs);
    }
  }

  /** A pair appears with score x exactly when its reply was usable and scored x. */
  lemma FundingRatesMembers(pairs: seq<string>, periods: seq<int>, weights: seq<real>,
                            respond: Request -> Reply<Sample>, symbol: string, x: real)
    requires ScoringConfigured(periods, weights)
    ensures (symbol, x) in FundingRates(pairs, periods, weights, respond) <==>
      symbol in pairs && SymbolScore(respond(HistoryRequest(symbol, MaxPeriod(periods))), periods, weights) == Some(x)
  {
    CollectMembers(pairs, Scorer(periods, weights, respond), symbol, x);
  }

  // ---------------------------------------------------------------- getInstruments, getPositions, closePosition

  /** One entry of `/v5/market/instruments-info`. */
  datatype Instrument = Instrument(symbol: string, status: string)

  function InstrumentsRequest(category: string): Request
  {
    Request("/v5/market/instruments-info", "GET", SortedMap.Put([], "category", category))
  }

  function TradingSymbols(list: seq<Instrument>): seq<string>
  {
    if |list| == 0 then []
    else
      var last := list[|list| - 1];
      TradingSymbols(list[..|list| - 1]) + (if last.status == "Trading" then [last.symbol] else [])
  }

  function Names(list: seq<Instrument>): (s: seq<string>)
    ensures |s| == |list| && forall i :: 0 <= i < |list| ==> s[i] == list[i].symbol
  {
    if |list| == 0 then [] else Names(list[..|list| - 1]) + [list[|list| - 1].symbol]
  }

  /** `getInstruments`: the symbols of the listed instruments whose status is "Trading". */
  method GetInstruments(reply: Reply<Instrument>) returns (instruments: seq<string>)
    ensures instruments == if ListReturned(reply) then TradingSymbols(reply.list.value) else []
  {
    instruments := [];
    if reply.Object? && reply.retCode == 0 && reply.list.Some? {
      var list := reply.list.value;
      var i := 0;
      while i < |list|
        invariant 0 <= i <= |list|
        invariant instruments == TradingSymbols(list[..i])
      {
        assert list[..i + 1][..i] == list[..i];
        if list[i].status == "Trading" {
          instruments := instruments + [list[i].symbol];
        }
        i := i + 1;
      }
      assert list[..|list|] == list;
    }
  }

  /** The trading symbols keep the order of the instrument list. */
  lemma {:induction false} TradingSymbolsInOrder(list: seq<Instrument>)
    ensures Subsequence(TradingSymbols(list), Names(list))
    decreases |list|
  {
    if |list| > 0 {
      var init := list[..|list| - 1];
      var last := list[|list| - 1];
      TradingSymbolsInOrder(init);
      assert Names(list) == Names(init) + [last.symbol];
      if last.status == "Trading" {
        SubsequenceKeep(TradingSymbols(init), Names(init), last.symbol);
      } else {
        assert TradingSymbols(list) == TradingSymbols(init) + [];
        assert TradingSymbols(init) + [] == TradingSymbols(init);
        SubsequenceSkip(TradingSymbols(init), Names(init), last.symbol);
      }
    }
  }

  /** A symbol is returned exactly when some instrument with that symbol is trading. */
  lemma {:induction false} TradingSymbolsMembers(list: seq<Instrument>, s: string)
    ensures s in TradingSymbols(list) <==>
      exists i :: 0 <= i < |list| && list[i].symbol == s && list[i].status == "Trading"
    decreases |list|
  {
    if |list| > 0 {
      var init := list[..|list| - 1];
      var last := list[|list| - 1];
      TradingSymbolsMembers(init, s);
      if exists i :: 0 <= i < |list| && list[i].symbol == s && list[i].status == "Trading" {
        var i :| 0 <= i < |list| && list[i].symbol == s && list[i].status == "Trading";
        if i < |init| {
          assert init[i] == list[i];
        }
      }
      if exists i :: 0 <= i < |init| && init[i].symbol == s && init[i].status == "Trading" {
        var i :| 0 <= i < |init| && init[i].symbol == s && init[i].status == "Trading";
        assert list[i] == init[i];
      }
    }
  }

  /** The parameters of `getPositions(symbol)`, held in key order: the symbol only when non-empty. */
  function PositionsParams(symbol: string): Params
  {
    [("category", "linear"), ("settleCoin", "USDT")] + (if symbol == "" then [] else [("symbol", symbol)])
  }

  /** Those parameters are the `std::map` the source fills: `category`, `settleCoin`, then `symbol` when given. */
  lemma PositionsParamsAsMap(symbol: string)
    ensures var base := SortedMap.Put(SortedMap.Put([], "category", "linear"), "settleCoin", "USDT");
      PositionsParams(symbol) == if symbol == "" then base else SortedMap.Put(base, "symbol", symbol)
  {
    SortedMap.PutEmpty("category", "linear");
    assert Less("category", "settleCoin");
    SortedMap.PutSecond("category", "linear", "settleCoin", "USDT");
    if symbol != "" {
      assert Less("settleCoin", "symbol");
      SortedMap.PutThird("category", "linear", "settleCoin", "USDT", "symbol", symbol);
    }
  }

  /**
   * `category=linear` and `settleCoin=USDT` are always sent; `symbol` is sent exactly when
   * it is non-empty, and nothing else is sent.
   */
  lemma PositionsParamsSent(symbol: string)
    ensures SortedMap.Sorted(PositionsParams(symbol))
    ensures SortedMap.Get(PositionsParams(symbol), "category") == Some("linear")
    ensures SortedMap.Get(PositionsParams(symbol), "settleCoin") == Some("USDT")
    ensures SortedMap.Get(PositionsParams(symbol), "symbol") == if symbol == "" then None else Some(symbol)
    ensures SortedMap.Keys(PositionsParams(symbol)) == {"category", "settleCoin"} + (if symbol == "" then {} else {"symbol"})
  {
    var ps := PositionsParams(symbol);
    assert Less("category", "settleCoin") && Less("settleCoin", "symbol");
    LessTransitive("category", "settleCoin", "symbol");
    assert ps[0].0 == "category" && ps[1].0 == "settleCoin";
    assert SortedMap.Get(ps, "settleCoin") == Some("USDT") by {
      assert ps[1..][0] == ("settleCoin", "USDT");
    }
    assert SortedMap.Get(ps, "symbol") == if symbol == "" then None else Some(symbol) by {
      assert ps[1..][1..] == ps[2..];
      assert SortedMap.Get(ps, "symbol") == SortedMap.Get(ps[2..], "symbol");
    }
    var want := {"category", "settleCoin"} + (if symbol == "" then {} else {"symbol"});
    forall x | x in SortedMap.Keys(ps) ensures x in want {
    }
    forall x | x in want ensures x in SortedMap.Keys(ps) {
      if x == "symbol" {
        assert ps[2].0 == x;
      } else if x == "settleCoin" {
        assert ps[1].0 == x;
      } else {
        assert ps[0].0 == x;
      }
    }
  }

  /**
   * `closePosition`: `getPositions` yields null unless the reply is an object with `retCode 0`;
   * with a non-empty list, the first position is closed by an order on the opposite side for
   * its full size. The result is that order's (side, quantity).
   */
  function CloseOrder(reply: Reply<Position>): (order: Option<(string, real)>)
    ensures order.Some? <==> ListReturned(reply) && |reply.list.value| > 0
    ensures order.Some? ==>
      order.value == (CloseSide(reply.list.value[0].side), reply.list.value[0].size)
  {
    if reply.Object? && reply.retCode == 0 && reply.list.Some? && |reply.list.value| > 0 then
      var first := reply.list.value[0];
      Some((CloseSide(first.side), first.size))
    else None
  }
}
