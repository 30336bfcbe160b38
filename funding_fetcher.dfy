/**
 * The stand-alone funding-history tool (`funding_rate_fetcher.cpp`): it asks CoinMarketCap for
 * the top coins, maps each to its USDT pair, fetches that pair's funding history from Bybit,
 * keeps the complete records, sorts them by rate (highest first), keeps at most 20, records the
 * pairs that have any, and prints the first 10 pairs in key order with annualised rates.
 */
module FundingFetcher {
  import opened Common
  import opened Strings
  import opened BybitWire
  import SortedMap

  // ---------------------------------------------------------------- getFundingRate

  /** One entry of the history list; a field is `None` when the member is missing. */
  datatype Item = Item(fundingRate: Option<real>, fundingRateTimestamp: Option<string>)

  /** What the HTTP call and the JSON parser produce for one request. */
  datatype FetchReply =
    | TransportError
    | Unparsable
    | Parsed(hasResultList: bool, list: seq<Item>)

  /** One kept record: the rate and its timestamp text. */
  datatype RatePoint = RatePoint(rate: real, timestamp: string)

  const HistoryEndpoint: string := "https://api.bybit.com/v5/market/funding/history"

  /** The request URL: the time bounds are appended only when given. */
  function FetchUrl(symbol: string, startTime: string, endTime: string): string
  {
    HistoryEndpoint + "?category=linear&symbol=" + symbol
    + (if startTime != "" then "&startTime=" + startTime else "")
    + (if endTime != "" then "&endTime=" + endTime else "")
  }

  /** The query parameters of that URL, in the order they are written. */
  function FetchParams(symbol: string, startTime: string, endTime: string): (ps: seq<(string, string)>)
    ensures |ps| >= 2
  {
    [("category", "linear"), ("symbol", symbol)]
    + (if startTime != "" then [("startTime", startTime)] else [])
    + (if endTime != "" then [("endTime", endTime)] else [])
  }

  /** The mandatory part of the query. */
  lemma BaseQuery(symbol: string)
    ensures QueryString([("category", "linear"), ("symbol", symbol)]) == "category=linear&symbol=" + symbol
  {
    var base := [("category", "linear"), ("symbol", symbol)];
    var fs := Fields(base);
    assert fs == [Field(base[0]), Field(base[1])];
    assert Field(base[0]) == "category=linear";
    assert Field(base[1]) == "symbol=" + symbol;
    assert fs[1..] == [Field(base[1])];
    assert Join(fs, '&') == fs[0] + "&" + fs[1];
  }

  /** An optional parameter adds `&key=value` to the query exactly when its value is non-empty. */
  lemma OptionalQuery(ps: seq<(string, string)>, key: string, value: string)
    requires |ps| >= 1
    ensures QueryString(ps + (if value != "" then [(key, value)] else [])) ==
      QueryString(ps) + (if value != "" then "&" + Field((key, value)) else "")
  {
    if value != "" {
      assert Fields(ps + [(key, value)]) == Fields(ps) + [Field((key, value))];
      JoinSnoc(Fields(ps), Field((key, value)), '&');
    } else {
      assert ps + [] == ps;
    }
  }

  /** The query of `FetchParams`, written out: the time bounds appear exactly when non-empty. */
  lemma FetchQuery(symbol: string, startTime: string, endTime: string)
    ensures QueryString(FetchParams(symbol, startTime, endTime)) ==
      "category=linear&symbol=" + symbol
      + (if startTime != "" then "&startTime=" + startTime else "")
      + (if endTime != "" then "&endTime=" + endTime else "")
  {
    var base := [("category", "linear"), ("symbol", symbol)];
    var withStart := base + (if startTime != "" then [("startTime", startTime)] else []);
    var ps := withStart + (if endTime != "" then [("endTime", endTime)] else []);
    var a := if startTime != "" then "&startTime=" + startTime else "";
    var b := if endTime != "" then "&endTime=" + endTime else "";
    var q0 := "category=linear&symbol=" + symbol;
    assert FetchParams(symbol, startTime, endTime) == ps;
    assert QueryString(base) == q0 by {
      BaseQuery(symbol);
    }
    assert QueryString(withStart) == q0 + a by {
      OptionalQuery(base, "startTime", startTime);
      AmpField("startTime", "&startTime=", startTime);
    }
    OptionalQuery(withStart, "endTime", endTime);
    AmpField("endTime", "&endTime=", endTime);
  }

  /** `&key=value`, with `&key=` spelled as one literal, is `&` followed by the field. */
  lemma AmpField(key: string, prefix: string, value: string)
    requires prefix == "&" + key + "="
    ensures "&" + Field((key, value)) == prefix + value
  {
  }

  /** The URL is the endpoint followed by `?` and the query of `FetchParams`. */
  lemma FetchUrlQuery(symbol: string, startTime: string, endTime: string)
    ensures FetchUrl(symbol, startTime, endTime) == HistoryEndpoint + "?" + QueryString(FetchParams(symbol, startTime, endTime))
  {
    FetchQuery(symbol, startTime, endTime);
    var a := if startTime != "" then "&startTime=" + startTime else "";
    var b := if endTime != "" then "&endTime=" + endTime else "";
    QuestionMarkLiteral();
    Regroup(HistoryEndpoint, "?category=linear&symbol=", "category=linear&symbol=", symbol, a, b);
  }

  lemma Regroup(e: string, p: string, rest: string, s: string, a: string, b: string)
    requires p == "?" + rest
    ensures e + p + s + a + b == e + "?" + (rest + s + a + b)
  {
  }

  lemma QuestionMarkLiteral()
    ensures "?category=linear&symbol=" == "?" + "category=linear&symbol="
  {
  }

  /** Reading the query back gives exactly the parameters that were written. */
  lemma FetchParamsRoundTrip(symbol: string, startTime: string, endTime: string)
    requires PlainParams(FetchParams(symbol, startTime, endTime))
    ensures ParseQuery(QueryString(FetchParams(symbol, startTime, endTime))) == FetchParams(symbol, startTime, endTime)
    ensures (exists i :: 0 <= i < |FetchParams(symbol, startTime, endTime)| &&
               FetchParams(symbol, startTime, endTime)[i].0 == "startTime") <==> startTime != ""
  {
    QueryRoundTrip(FetchParams(symbol, startTime, endTime));
    var ps := FetchParams(symbol, startTime, endTime);
    if startTime != "" {
      assert ps[2].0 == "startTime";
    } else {
      assert forall i :: 0 <= i < |ps| ==> ps[i].0 in {"category", "symbol", "endTime"};
    }
  }

  /** The reply has `result.list`: the other replies make `getFundingRate` report failure. */
  predicate Answered(r: FetchReply)
  {
    r.Parsed? && r.hasResultList
  }

  /** The items that carry both `fundingRate` and `fundingRateTimestamp`, in list order. */
  function Filtered(list: seq<Item>): (r: seq<RatePoint>)
    ensures |r| <= |list|
  {
    if |list| == 0 then []
    else
      var item := list[|list| - 1];
      Filtered(list[..|list| - 1])
      + (if item.fundingRate.Some? && item.fundingRateTimestamp.Some?
         then [RatePoint(item.fundingRate.value, item.fundingRateTimestamp.value)]
         else [])
  }

  /** A record is kept exactly when some list item carries both of its fields. */
  lemma {:induction false} FilteredMembers(list: seq<Item>, p: RatePoint)
    ensures p in Filtered(list) <==>
      exists i :: 0 <= i < |list| && list[i] == Item(Some(p.rate), Some(p.timestamp))
    decreases |list|
  {
    if |list| > 0 {
      var init := list[..|list| - 1];
      FilteredMembers(init, p);
      if exists i :: 0 <= i < |list| && list[i] == Item(Some(p.rate), Some(p.timestamp)) {
        var i :| 0 <= i < |list| && list[i] == Item(Some(p.rate), Some(p.timestamp));
        if i < |init| {
          assert init[i] == list[i];
        }
      }
      if exists i :: 0 <= i < |init| && init[i] == Item(Some(p.rate), Some(p.timestamp)) {
        var i :| 0 <= i < |init| && init[i] == Item(Some(p.rate), Some(p.timestamp));
        assert list[i] == init[i];
      }
    }
  }

  /** Rates do not increase from left to right. */
  ghost predicate SortedDesc(s: seq<RatePoint>)
  {
    forall p, q :: 0 <= p < q < |s| ==> s[p].rate >= s[q].rate
  }

  /** The at most 20 highest-rate records of `found`, highest first. */
  ghost predicate TopRates(found: seq<RatePoint>, r: seq<RatePoint>)
  {
    && |r| == Min(20, |found|)
    && SortedDesc(r)
    && multiset(r) <= multiset(found)
    && (forall x, y :: x in multiset(found) - multiset(r) && y in r ==> x.rate <= y.rate)
  }

  /** With 20 records or fewer nothing is dropped: the result is a permutation of them. */
  lemma TopRatesKeepsAllOfFew(found: seq<RatePoint>, r: seq<RatePoint>)
    requires TopRates(found, r) && |found| <= 20
    ensures multiset(r) == multiset(found)
  {
    var rest := multiset(found) - multiset(r);
    assert multiset(found) == multiset(r) + rest;
    assert |rest| == 0;
  }

  method Swap(a: array<RatePoint>, i: int, j: int)
    requires 0 <= i < a.Length && 0 <= j < a.Length
    modifies a
    ensures a[i] == old(a[j]) && a[j] == old(a[i])
    ensures forall k :: 0 <= k < a.Length && k != i && k != j ==> a[k] == old(a[k])
    ensures multiset(a[..]) == old(multiset(a[..]))
  {
    a[i], a[j] := a[j], a[i];
  }

  /** `std::sort` with `a.first > b.first`: an in-place insertion sort, highest rate first. */
  method SortByRateDesc(a: array<RatePoint>)
    modifies a
    ensures SortedDesc(a[..])
    ensures multiset(a[..]) == old(multiset(a[..]))
  {
    var i := 0;
    while i < a.Length
      invariant 0 <= i <= a.Length
      invariant forall p, q :: 0 <= p < q < i ==> a[p].rate >= a[q].rate
      invariant multiset(a[..]) == old(multiset(a[..]))
    {
      var j := i;
      while j > 0 && a[j - 1].rate < a[j].rate
        invariant 0 <= j <= i
        invariant forall p, q :: 0 <= p < q <= i && p != j && q != j ==> a[p].rate >= a[q].rate
        invariant forall q :: j < q <= i ==> a[j].rate >= a[q].rate
        invariant multiset(a[..]) == old(multiset(a[..]))
      {
        Swap(a, j - 1, j);
        j := j - 1;
      }
      i := i + 1;
    }
  }

  /** In a sorted sequence every entry after position m is at most every entry before it. */
  lemma SortedSplit(s: seq<RatePoint>, m: nat)
    requires SortedDesc(s) && m <= |s|
    ensures forall x, y :: x in s[m..] && y in s[..m] ==> x.rate <= y.rate
  {
    forall x, y | x in s[m..] && y in s[..m] ensures x.rate <= y.rate {
      var p :| 0 <= p < m && s[p] == y;
      var q :| 0 <= q < |s| - m && s[m..][q] == x;
      assert s[m + q] == x;
    }
  }

  /** Cutting a sorted permutation of `found` after its first m entries gives the top m. */
  lemma TopOfSorted(found: seq<RatePoint>, s: seq<RatePoint>, m: nat)
    requires SortedDesc(s) && multiset(s) == multiset(found)
    requires m == Min(20, |s|)
    ensures TopRates(found, s[..m])
  {
    assert s == s[..m] + s[m..];
    assert multiset(s) == multiset(s[..m]) + multiset(s[m..]);
    assert multiset(found) - multiset(s[..m]) == multiset(s[m..]);
    assert |s| == |found| by {
      assert |multiset(s)| == |multiset(found)|;
    }
    SortedSplit(s, m);
    forall x, y | x in multiset(found) - multiset(s[..m]) && y in s[..m] ensures x.rate <= y.rate {
      assert x in s[m..];
    }
    assert SortedDesc(s[..m]) by {
      forall p, q | 0 <= p < q < m ensures s[..m][p].rate >= s[..m][q].rate {
        assert s[..m][p] == s[p] && s[..m][q] == s[q];
      }
    }
  }

  /** The loop of `getFundingRate` that pushes the complete records. */
  method CollectItems(list: seq<Item>) returns (found: seq<RatePoint>)
    ensures found == Filtered(list)
  {
    found := [];
    var i := 0;
    while i < |list|
      invariant 0 <= i <= |list|
      invariant found == Filtered(list[..i])
    {
      assert list[..i + 1][..i] == list[..i];
      var item := list[i];
      if item.fundingRate.Some? && item.fundingRateTimestamp.Some? {
        found := found + [RatePoint(item.fundingRate.value, item.fundingRateTimestamp.value)];
      }
      i := i + 1;
    }
    assert list[..|list|] == list;
  }

  /** `std::sort` of the records followed by `resize(20)`. */
  method RankTop(found: seq<RatePoint>) returns (results: seq<RatePoint>)
    ensures TopRates(found, results)
  {
    var a := new RatePoint[|found|](k requires 0 <= k < |found| => found[k]);
    assert a[..] == found;
    SortByRateDesc(a);
    var m := if a.Length > 20 then 20 else a.Length;
    results := a[..m];
    TopOfSorted(found, a[..], m);
  }

  /** `getFundingRate(symbol, startTime, endTime)`; `fetch` stands for the HTTP call and the parser. */
  method GetFundingRate(symbol: string, startTime: string, endTime: string, fetch: string -> FetchReply)
    returns (success: bool, results: seq<RatePoint>)
    ensures success <==> Answered(fetch(FetchUrl(symbol, startTime, endTime)))
    ensures !success ==> results == []
    ensures success ==> TopRates(Filtered(fetch(FetchUrl(symbol, startTime, endTime)).list), results)
  {
    var url := HistoryEndpoint + "?category=linear&symbol=" + symbol;
    if startTime != "" {
      url := url + "&startTime=" + startTime;
    }
    if endTime != "" {
      url := url + "&endTime=" + endTime;
    }
    assert url == FetchUrl(symbol, startTime, endTime);
    var reply := fetch(url);
    if !reply.Parsed? || !reply.hasResultList {
      return false, [];
    }
    var found := CollectItems(reply.list);
    results := RankTop(found);
    success := true;
  }

  // ---------------------------------------------------------------- getTop20Cryptocurrencies

  /** The CoinMarketCap reply: lost, or parsed with `data` (each coin's `symbol` if present). */
  datatype ListingReply = ListingFailed | Listing(hasData: bool, coins: seq<Option<string>>)

  /** The symbols of the coins that have one, in listing order. */
  function PresentSymbols(coins: seq<Option<string>>): seq<string>
  {
    if |coins| == 0 then []
    else
      var last := coins[|coins| - 1];
      PresentSymbols(coins[..|coins| - 1]) + (if last.Some? then [last.value] else [])
  }

  /** The trading pairs: every present symbol with "USDT" appended. */
  function UsdtPairs(symbols: seq<string>): (pairs: seq<string>)
    ensures |pairs| == |symbols|
  {
    if |symbols| == 0 then [] else UsdtPairs(symbols[..|symbols| - 1]) + [symbols[|symbols| - 1] + "USDT"]
  }

  function TopPairs(reply: ListingReply): seq<string>
  {
    if reply.Listing? && reply.hasData then UsdtPairs(PresentSymbols(reply.coins)) else []
  }

  /** `getTop20Cryptocurrencies`; the transport and the parser are folded into `reply`. */
  method GetTop20(reply: ListingReply) returns (symbols: seq<string>)
    ensures symbols == TopPairs(reply)
  {
    symbols := [];
    if reply.Listing? && reply.hasData {
      var coins := reply.coins;
      ghost var present: seq<string> := [];
      var i := 0;
      while i < |coins|
        invariant 0 <= i <= |coins|
        invariant present == PresentSymbols(coins[..i])
        invariant symbols == UsdtPairs(present)
      {
        assert coins[..i + 1][..i] == coins[..i];
        if coins[i].Some? {
          UsdtPairsSnoc(present, coins[i].value);
          symbols := symbols + [coins[i].value + "USDT"];
          present := present + [coins[i].value];
        }
        i := i + 1;
      }
      assert coins[..|coins|] == coins;
    }
  }

  lemma UsdtPairsSnoc(symbols: seq<string>, s: string)
    ensures UsdtPairs(symbols + [s]) == UsdtPairs(symbols) + [s + "USDT"]
  {
    assert (symbols + [s])[..|symbols|] == symbols;
  }

  /** Pair i is symbol i followed by "USDT", so removing the suffix gives the symbol back. */
  lemma {:induction false} UsdtPairsInverse(symbols: seq<string>)
    ensures forall i :: 0 <= i < |symbols| ==>
      |UsdtPairs(symbols)[i]| == |symbols[i]| + 4 &&
      UsdtPairs(symbols)[i][..|symbols[i]|] == symbols[i] &&
      UsdtPairs(symbols)[i][|symbols[i]|..] == "USDT"
    decreases |symbols|
  {
    if |symbols| > 0 {
      var init := symbols[..|symbols| - 1];
      UsdtPairsInverse(init);
      forall i | 0 <= i < |symbols|
        ensures |UsdtPairs(symbols)[i]| == |symbols[i]| + 4
        ensures UsdtPairs(symbols)[i][..|symbols[i]|] == symbols[i]
        ensures UsdtPairs(symbols)[i][|symbols[i]|..] == "USDT"
      {
        if i < |init| {
          assert UsdtPairs(symbols)[i] == UsdtPairs(init)[i];
          assert init[i] == symbols[i];
        }
      }
    }
  }

  // ---------------------------------------------------------------- main

  /** The rates of one pair, as `main` fetches them (no time bounds). */
  function PairReply(fetch: string -> FetchReply, symbol: string): FetchReply
  {
    fetch(FetchUrl(symbol, "", ""))
  }

  /** A pair is recorded when its fetch succeeded and kept at least one record. */
  predicate Recorded(fetch: string -> FetchReply, symbol: string)
  {
    Answered(PairReply(fetch, symbol)) && |Filtered(PairReply(fetch, symbol).list)| > 0
  }

  /** The loop of `main` that fills `allRates`. */
  method CollectRates(topCoins: seq<string>, fetch: string -> FetchReply)
    returns (allRates: SortedMap.Entries<seq<RatePoint>>)
    ensures SortedMap.Sorted(allRates)
    ensures forall s :: SortedMap.Get(allRates, s).Some? <==> s in topCoins && Recorded(fetch, s)
    ensures forall s :: SortedMap.Get(allRates, s).Some? ==>
      Recorded(fetch, s) && TopRates(Filtered(PairReply(fetch, s).list), SortedMap.Get(allRates, s).value)
  {
    allRates := [];
    var k := 0;
    while k < |topCoins|
      invariant 0 <= k <= |topCoins|
      invariant SortedMap.Sorted(allRates)
      invariant forall s :: SortedMap.Get(allRates, s).Some? <==> s in topCoins[..k] && Recorded(fetch, s)
      invariant forall s :: SortedMap.Get(allRates, s).Some? ==>
        Recorded(fetch, s) && TopRates(Filtered(PairReply(fetch, s).list), SortedMap.Get(allRates, s).value)
    {
      var symbol := topCoins[k];
      assert topCoins[..k + 1] == topCoins[..k] + [symbol];
      var success, rates := GetFundingRate(symbol, "", "", fetch);
      if success && |rates| > 0 {
        allRates := SortedMap.Put(allRates, symbol, rates);
      }
      k := k + 1;
    }
    assert topCoins[..|topCoins|] == topCoins;
  }

  /** One printed line: pair, rate, annualised rate, timestamp. */
  datatype ReportLine = ReportLine(symbol: string, rate: real, annualized: real, timestamp: string)

  /** Three fundings a day, 365 days, as a percentage. */
  function Annualized(rate: real): real
  {
    rate * (365 * 3) as real * 100.0
  }

  function PairLines(symbol: string, rates: seq<RatePoint>): (lines: seq<ReportLine>)
    ensures |lines| == |rates|
  {
    if |rates| == 0 then []
    else
      var p := rates[|rates| - 1];
      PairLines(symbol, rates[..|rates| - 1]) + [ReportLine(symbol, p.rate, Annualized(p.rate), p.timestamp)]
  }

  function ReportLines(entries: SortedMap.Entries<seq<RatePoint>>): seq<ReportLine>
  {
    if |entries| == 0 then []
    else ReportLines(entries[..|entries| - 1]) + PairLines(entries[|entries| - 1].0, entries[|entries| - 1].1)
  }

  lemma PairLinesSnoc(symbol: string, rates: seq<RatePoint>, j: nat)
    requires j < |rates|
    ensures PairLines(symbol, rates[..j + 1]) ==
      PairLines(symbol, rates[..j]) + [ReportLine(symbol, rates[j].rate, Annualized(rates[j].rate), rates[j].timestamp)]
  {
    assert rates[..j + 1][..j] == rates[..j];
  }

  /** The printing loop of `main`: the first ten pairs in key order, each with all its records. */
  method Report(allRates: SortedMap.Entries<seq<RatePoint>>) returns (shown: seq<string>, lines: seq<ReportLine>)
    ensures |shown| == Min(10, |allRates|)
    ensures forall i :: 0 <= i < |shown| ==> shown[i] == allRates[i].0
    ensures lines == ReportLines(allRates[..|shown|])
  {
    shown := [];
    lines := [];
    var count := 0;
    var e := 0;
    while e < |allRates|
      invariant 0 <= e <= |allRates|
      invariant count == e <= 10
      invariant |shown| == e && forall i :: 0 <= i < e ==> shown[i] == allRates[i].0
      invariant lines == ReportLines(allRates[..e])
    {
      if count >= 10 {
        break;
      }
      var (symbol, rates) := allRates[e];
      assert allRates[..e + 1][..e] == allRates[..e];
      shown := shown + [symbol];
      var j := 0;
      ghost var before := lines;
      while j < |rates|
        invariant 0 <= j <= |rates|
        invariant lines == before + PairLines(symbol, rates[..j])
      {
        var rp := rates[j];
        var annualizedRate := rp.rate * (365 * 3) as real * 100.0;
        var line := ReportLine(symbol, rp.rate, annualizedRate, rp.timestamp);
        assert annualizedRate == Annualized(rp.rate);
        PairLinesSnoc(symbol, rates, j);
        assert (before + PairLines(symbol, rates[..j])) + [line] == before + (PairLines(symbol, rates[..j]) + [line]);
        lines := lines + [line];
        assert lines == before + PairLines(symbol, rates[..j + 1]);
        j := j + 1;
      }
      assert rates[..|rates|] == rates;
      count := count + 1;
      e := e + 1;
    }
  }

  function PairsOf(lines: seq<ReportLine>): set<string>
  {
    set i | 0 <= i < |lines| :: lines[i].symbol
  }

  lemma {:induction false} PairLinesFacts(symbol: string, rates: seq<RatePoint>)
    ensures forall i :: 0 <= i < |rates| ==>
      PairLines(symbol, rates)[i] == ReportLine(symbol, rates[i].rate, Annualized(rates[i].rate), rates[i].timestamp)
    decreases |rates|
  {
    if |rates| > 0 {
      PairLinesFacts(symbol, rates[..|rates| - 1]);
    }
  }

  /**
   * Every printed line belongs to one of the shown pairs, carries a record of that pair and
   * its annualised rate, which is 109500 times the rate.
   */
  lemma {:induction false} ReportLinesFacts(entries: SortedMap.Entries<seq<RatePoint>>, l: ReportLine)
    requires l in ReportLines(entries)
    ensures l.annualized == 109500.0 * l.rate
    ensures exists e :: 0 <= e < |entries| && entries[e].0 == l.symbol && RatePoint(l.rate, l.timestamp) in entries[e].1
    decreases |entries|
  {
    var init := entries[..|entries| - 1];
    var (symbol, rates) := entries[|entries| - 1];
    if l in ReportLines(init) {
      ReportLinesFacts(init, l);
      var e :| 0 <= e < |init| && init[e].0 == l.symbol && RatePoint(l.rate, l.timestamp) in init[e].1;
      assert entries[e] == init[e];
    } else {
      assert l in PairLines(symbol, rates);
      PairLinesFacts(symbol, rates);
      var i :| 0 <= i < |rates| && PairLines(symbol, rates)[i] == l;
      assert rates[i] == RatePoint(l.rate, l.timestamp);
    }
  }

  /** The shown pairs are the ten smallest keys: each comes before every pair not shown. */
  lemma ShownPairsComeFirst(allRates: SortedMap.Entries<seq<RatePoint>>, i: nat, j: nat)
    requires SortedMap.Sorted(allRates)
    requires i < Min(10, |allRates|) <= j < |allRates|
    ensures Less(allRates[i].0, allRates[j].0)
  {
  }
}
