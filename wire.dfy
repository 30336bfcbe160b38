/**
 * What both Bybit REST clients (`src/exchange/bybit_api.cpp` and its older copy
 * `lib/exchange/bybit_api.cpp`) build before and after an HTTP call: the request parameters,
 * the GET query string, the POST body, the signature payload and its hex encoding, and the
 * parsed replies. Transport, JSON text and HMAC-SHA256 are outside the model: a reply is an
 * abstract value and the digest an input.
 */
module BybitWire {
  import opened Common
  import opened Strings
  import SortedMap

  /** Request parameters: a `std::map<std::string, std::string>`, in key order. */
  type Params = SortedMap.Entries<string>

  /** A call of `makeRequest(endpoint, method, params)`. */
  datatype Request = Request(endpoint: string, verb: string, params: Params)

  /**
   * A parsed JSON reply of the form `{retCode, result: {list: [...]}}`. `NotObject` stands for
   * the null value `makeRequest` returns when the transport or the parser failed; `list` is
   * `None` when `result.list` is not an array.
   */
  datatype Reply<T> = NotObject | Object(retCode: int, list: Option<seq<T>>)

  /** One entry of `/v5/position/list`. */
  datatype Position = Position(symbol: string, side: string, size: real, positionValue: real)

  /** The reply is an object with `retCode == 0` and an array `result.list`. */
  predicate ListReturned<T>(r: Reply<T>)
  {
    r.Object? && r.retCode == 0 && r.list.Some?
  }

  /** The receive window sent in the header and signed in the payload. */
  const RecvWindow: string := "5000"

  /** One `key=value` pair of a query string. */
  function Field(p: (string, string)): string
  {
    p.0 + "=" + p.1
  }

  function Fields(ps: Params): (fs: seq<string>)
    ensures |fs| == |ps|
    ensures forall i :: 0 <= i < |ps| ==> fs[i] == Field(ps[i])
  {
    if |ps| == 0 then [] else Fields(ps[..|ps| - 1]) + [Field(ps[|ps| - 1])]
  }

  /** The GET parameter string: `key=value` pairs in key order, separated by `&`. */
  function QueryString(ps: Params): string
  {
    Join(Fields(ps), '&')
  }

  /** The loop of `makeRequest` that builds `paramString` for a GET request. */
  method BuildQuery(params: Params) returns (paramString: string)
    ensures paramString == QueryString(params)
  {
    paramString := "";
    var i := 0;
    while i < |params|
      invariant 0 <= i <= |params|
      invariant paramString == QueryString(params[..i])
      invariant (paramString == "") <==> i == 0
    {
      var (key, value) := params[i];
      assert params[..i + 1] == params[..i] + [params[i]];
      assert params[..i + 1][..i] == params[..i];
      if paramString != "" {
        paramString := paramString + "&";
        JoinSnoc(Fields(params[..i]), Field(params[i]), '&');
      }
      paramString := paramString + key + "=" + value;
      i := i + 1;
    }
    assert params[..|params|] == params;
  }

  /** The query string is empty exactly when there are no parameters (so `?` is added iff any). */
  lemma QueryEmptyIff(ps: Params)
    ensures QueryString(ps) == "" <==> |ps| == 0
  {
    if |ps| > 0 {
      JoinStartsWithFirst(Fields(ps), '&');
      assert Field(ps[0])[|ps[0].0|] == '=';
    }
  }

  /** Reading a query string back: split on `&`, then each field on `=`. */
  function ParseQuery(q: string): seq<(string, string)>
  {
    if q == "" then []
    else
      var fs := Split(q, '&');
      seq(|fs|, i requires 0 <= i < |fs| => ParseField(fs[i]))
  }

  function ParseField(f: string): (string, string)
  {
    var parts := Split(f, '=');
    (parts[0], if |parts| >= 2 then parts[1] else "")
  }

  /** Keys and values that carry neither separator survive the trip through the query string. */
  predicate PlainParams(ps: Params)
  {
    forall i :: 0 <= i < |ps| ==> '&' !in ps[i].0 && '&' !in ps[i].1 && '=' !in ps[i].0 && '=' !in ps[i].1
  }

  lemma QueryRoundTrip(ps: Params)
    requires PlainParams(ps)
    ensures ParseQuery(QueryString(ps)) == ps
  {
    QueryEmptyIff(ps);
    if |ps| > 0 {
      var fs := Fields(ps);
      forall i | 0 <= i < |fs| ensures '&' !in fs[i] {
        assert fs[i] == ps[i].0 + "=" + ps[i].1;
      }
      SplitJoin(fs, '&');
      forall i | 0 <= i < |ps| ensures ParseField(fs[i]) == ps[i] {
        SplitAtDelimiter(ps[i].0, ps[i].1, '=');
        SplitWithoutDelimiter(ps[i].1, '=');
        assert fs[i] == ps[i].0 + ['='] + ps[i].1;
      }
    }
  }

  /** The POST body after `Json::FastWriter::write`: one trailing newline is removed. */
  function StripTrailingNewline(s: string): (r: string)
    ensures |r| <= |s| && r == s[..|r|]
  {
    if |s| > 0 && s[|s| - 1] == '\n' then s[..|s| - 1] else s
  }

  /** The serialiser appends a newline; stripping gives the JSON text back unchanged. */
  lemma StripUndoesNewline(json: string)
    ensures StripTrailingNewline(json + "\n") == json
  {
    assert (json + "\n")[..|json|] == json;
  }

  /** Only a final newline is removed, and only one of them. */
  lemma StripKeepsOtherText(s: string)
    ensures (|s| > 0 && s[|s| - 1] == '\n') ==> StripTrailingNewline(s) + "\n" == s
    ensures !(|s| > 0 && s[|s| - 1] == '\n') ==> StripTrailingNewline(s) == s
  {
    if |s| > 0 && s[|s| - 1] == '\n' {
      assert s[..|s| - 1] + "\n" == s;
    }
  }

  /** The text signed by HMAC-SHA256: timestamp, API key, receive window, parameter string. */
  function SignaturePayload(timestamp: string, apiKey: string, params: string): (payload: string)
    ensures |payload| == |timestamp| + |apiKey| + |RecvWindow| + |params|
    ensures payload[..|timestamp|] == timestamp
    ensures payload[|payload| - |params|..] == params
  {
    timestamp + apiKey + RecvWindow + params
  }

  /** With timestamp and key fixed, different parameter strings are signed as different texts. */
  lemma PayloadDeterminesParams(timestamp: string, apiKey: string, p1: string, p2: string)
    requires SignaturePayload(timestamp, apiKey, p1) == SignaturePayload(timestamp, apiKey, p2)
    ensures p1 == p2
  {
    var pre := timestamp + apiKey + RecvWindow;
    assert SignaturePayload(timestamp, apiKey, p1)[|pre|..] == p1;
    assert SignaturePayload(timestamp, apiKey, p2)[|pre|..] == p2;
  }

  newtype byte = x: int | 0 <= x < 256

  const HexDigits: string := "0123456789abcdef"

  /** Two lowercase hex digits, zero-padded: `std::hex << setw(2) << setfill('0')`. */
  function HexByte(b: byte): (s: string)
    ensures |s| == 2 && s[0] in HexDigits && s[1] in HexDigits
  {
    [HexDigits[b as int / 16], HexDigits[b as int % 16]]
  }

  /** The hex text of a digest, byte by byte. */
  function Hex(digest: seq<byte>): string
  {
    if |digest| == 0 then "" else Hex(digest[..|digest| - 1]) + HexByte(digest[|digest| - 1])
  }

  /** The loop of `generateSignature` that writes the digest to a string stream. */
  method HexEncode(digest: seq<byte>) returns (s: string)
    ensures s == Hex(digest)
  {
    s := "";
    var i := 0;
    while i < |digest|
      invariant 0 <= i <= |digest|
      invariant s == Hex(digest[..i])
    {
      assert digest[..i + 1][..i] == digest[..i];
      s := s + HexByte(digest[i]);
      i := i + 1;
    }
    assert digest[..|digest|] == digest;
  }

  /** Byte i of the digest becomes characters 2i and 2i+1; every character is a lowercase hex digit. */
  lemma {:induction false} HexLayout(digest: seq<byte>)
    ensures |Hex(digest)| == 2 * |digest|
    ensures forall i :: 0 <= i < |digest| ==> Hex(digest)[2 * i..2 * i + 2] == HexByte(digest[i])
    ensures forall j :: 0 <= j < |Hex(digest)| ==> Hex(digest)[j] in HexDigits
    decreases |digest|
  {
    if |digest| > 0 {
      var init := digest[..|digest| - 1];
      HexLayout(init);
      var h := Hex(digest);
      assert h == Hex(init) + HexByte(digest[|digest| - 1]);
      forall i | 0 <= i < |digest| ensures h[2 * i..2 * i + 2] == HexByte(digest[i]) {
        if i < |digest| - 1 {
          assert h[2 * i..2 * i + 2] == Hex(init)[2 * i..2 * i + 2];
          assert init[i] == digest[i];
        }
      }
    }
  }

  /** The value of one lowercase hex digit. */
  function HexValue(c: char): nat
  {
    if '0' <= c <= '9' then (c as int - '0' as int) as nat
    else if 'a' <= c <= 'f' then (c as int - 'a' as int + 10) as nat
    else 0
  }

  function DecodePair(hi: char, lo: char): byte
  {
    ((HexValue(hi) % 16) * 16 + HexValue(lo) % 16) as byte
  }

  /** Reading hex text back into bytes, two characters at a time. */
  function HexDecode(s: string): seq<byte>
  {
    if |s| < 2 then [] else HexDecode(s[..|s| - 2]) + [DecodePair(s[|s| - 2], s[|s| - 1])]
  }

  lemma HexValueOfDigit(n: nat)
    requires n < 16
    ensures HexValue(HexDigits[n]) == n
  {
  }

  lemma DecodeHexByte(b: byte)
    ensures DecodePair(HexByte(b)[0], HexByte(b)[1]) == b
  {
    var hi, lo := b as int / 16, b as int % 16;
    var h := HexByte(b);
    assert HexValue(h[0]) % 16 == hi && HexValue(h[1]) % 16 == lo by {
      assert h[0] == HexDigits[hi] && h[1] == HexDigits[lo];
      HexValueOfDigit(hi);
      HexValueOfDigit(lo);
    }
    assert hi * 16 + lo == b as int;
  }

  /** Decoding reads the last two characters as the last byte. */
  lemma HexDecodeSnoc(s: string, pair: string)
    requires |pair| == 2
    ensures HexDecode(s + pair) == HexDecode(s) + [DecodePair(pair[0], pair[1])]
  {
    var t := s + pair;
    assert t[..|t| - 2] == s;
    assert t[|t| - 2] == pair[0] && t[|t| - 1] == pair[1];
  }

  /** The hex text determines the digest: decoding it gives every byte back. */
  lemma {:induction false} HexRoundTrip(digest: seq<byte>)
    ensures HexDecode(Hex(digest)) == digest
    decreases |digest|
  {
    if |digest| > 0 {
      var init := digest[..|digest| - 1];
      var b := digest[|digest| - 1];
      assert digest == init + [b];
      HexRoundTrip(init);
      HexRoundTripSnoc(init, b);
    }
  }

  /** Encoding one more byte and decoding gives that byte after the others. */
  lemma HexRoundTripSnoc(init: seq<byte>, b: byte)
    requires HexDecode(Hex(init)) == init
    ensures HexDecode(Hex(init + [b])) == init + [b]
  {
    var pair := HexByte(b);
    assert (init + [b])[..|init|] == init;
    assert Hex(init + [b]) == Hex(init) + pair;
    HexDecodeSnoc(Hex(init), pair);
    DecodeHexByte(b);
  }

  /**
   * `generateSignature`: the HMAC of the payload (an input here, `hmac`), hex encoded.
   * SHA-256 gives 32 bytes, so the header value is 64 characters.
   */
  method GenerateSignature(hmac: (string, string) -> seq<byte>, secret: string, apiKey: string,
                           params: string, timestamp: string) returns (signature: string)
    ensures signature == Hex(hmac(secret, SignaturePayload(timestamp, apiKey, params)))
    ensures |signature| == 2 * |hmac(secret, SignaturePayload(timestamp, apiKey, params))|
  {
    var payload := timestamp + apiKey + RecvWindow + params;
    var digest := hmac(secret, payload);
    signature := HexEncode(digest);
    HexLayout(digest);
  }

  /** The side of the order that closes a position: "Buy" is closed by "Sell", anything else by "Buy". */
  function CloseSide(side: string): (close: string)
    ensures close == "Sell" || close == "Buy"
    ensures (close == "Sell") <==> side == "Buy"
  {
    if side == "Buy" then "Sell" else "Buy"
  }
}
