/**
 * The query-string half of the request parser (`src/MCPx64dbg.cpp`):
 * percent-decoding of one component, and the split of `k=v&k=v` into the
 * parameter map the handlers read, where a later duplicate key wins.
 */
module Query {
  import opened Wrappers
  import opened Numerals
  import opened Text

  /** The parameters of one request, as handed to every handler. */
  type ParamMap = map<string, string>

  // ---------------------------------------------------------------------------
  // UrlDecode
  // ---------------------------------------------------------------------------

  /**
   * The byte `std::istringstream(two) >> std::hex` reads from the two
   * characters after a `%` when they convert: the value of their leading hex
   * digits, both or just the first.
   */
  function PercentByte(a: char, b: char): (c: char)
    requires HexPairParses(a, b)
    ensures c as nat < 256
    ensures c as nat == ValueOf(Hex, [a, b][..DigitRun(Hex, [a, b])])
  {
    HexPairValue(a, b) as char
  }

  /**
   * Decodes one query component left to right: `+` becomes a space, a `%`
   * with at least two characters after it that convert in base 16 becomes
   * one byte and consumes all three characters, and anything else (a `%`
   * near the end, or one whose two characters do not convert) is copied.
   */
  function UrlDecode(s: string): (r: string)
    ensures |r| <= |s|
    decreases |s|
  {
    if s == [] then []
    else if s[0] == '%' && |s| > 2 && HexPairParses(s[1], s[2]) then [PercentByte(s[1], s[2])] + UrlDecode(s[3..])
    else if s[0] == '+' then " " + UrlDecode(s[1..])
    else [s[0]] + UrlDecode(s[1..])
  }

  /** Text with neither `%` nor `+` decodes to itself. */
  lemma {:induction false} UrlDecodePlain(s: string)
    requires forall i :: 0 <= i < |s| ==> s[i] != '%' && s[i] != '+'
    ensures UrlDecode(s) == s
    decreases |s|
  {
    if s != [] {
      UrlDecodePlain(s[1..]);
      assert [s[0]] + s[1..] == s;
    }
  }

  /** A `%` with fewer than two characters after it is kept literally. */
  lemma ShortPercentIsLiteral(s: string)
    requires |s| <= 2 && |s| > 0 && s[0] == '%'
    requires |s| == 2 ==> s[1] != '%' && s[1] != '+'
    ensures UrlDecode(s) == s
  {
    if |s| == 2 {
      assert s[1..][1..] == [];
      assert UrlDecode(s[1..]) == [s[1]];
    }
  }

  /** A `%` followed by a bare `0x`/`0X` does not convert, and all three characters are kept. */
  lemma PercentBareHexPrefixIsLiteral(x: char, t: string)
    requires x == 'x' || x == 'X'
    ensures UrlDecode(['%', '0', x] + t) == ['%', '0', x] + UrlDecode(t)
  {
    var s := ['%', '0', x] + t;
    assert !HexPairParses(s[1], s[2]);
    assert s[1..] == ['0', x] + t && s[1..][1..] == [x] + t && ([x] + t)[1..] == t;
    assert UrlDecode([x] + t) == [x] + UrlDecode(t);
    assert UrlDecode(['0', x] + t) == ['0'] + UrlDecode([x] + t);
    assert UrlDecode(s) == ['%'] + UrlDecode(['0', x] + t);
  }

  // ---------------------------------------------------------------------------
  // UrlEncode: the client-side inverse
  // ---------------------------------------------------------------------------

  /** Strings whose characters are all bytes, as `std::string` holds them. */
  predicate IsByteString(s: string)
  {
    forall i :: 0 <= i < |s| ==> s[i] as nat < 256
  }

  /** The unreserved characters of section 2.3 of RFC 3986, sent as themselves. */
  predicate Unreserved(c: char)
  {
    'a' <= c <= 'z' || 'A' <= c <= 'Z' || '0' <= c <= '9' || c == '-' || c == '.' || c == '_' || c == '~'
  }

  function EncodeChar(c: char): (r: string)
    requires c as nat < 256
  {
    if Unreserved(c) then [c] else ['%', HexChar(c as nat / 16), HexChar(c as nat % 16)]
  }

  /** Percent-encodes every byte that is not unreserved. */
  function UrlEncode(s: string): (r: string)
    requires IsByteString(s)
    ensures forall i :: 0 <= i < |r| ==> r[i] != '&' && r[i] != '=' && r[i] != '+'
    ensures forall i :: 0 <= i < |r| ==> r[i] != ' ' && r[i] != '\r'
  {
    if s == [] then [] else EncodeChar(s[0]) + UrlEncode(s[1..])
  }

  /** The escape of a reserved byte is a pair that converts back to that byte. */
  lemma PercentEscapeDecodes(c: char)
    requires c as nat < 256 && !Unreserved(c)
    ensures var e := EncodeChar(c); |e| == 3 && e[0] == '%' && HexPairParses(e[1], e[2]) && PercentByte(e[1], e[2]) == c
  {
    var e := EncodeChar(c);
    var hi, lo := c as nat / 16, c as nat % 16;
    assert e == ['%', HexChar(hi), HexChar(lo)];
    assert !IsDigitOf(Hex, 'x') && !IsDigitOf(Hex, 'X');
    assert HexPairParses(e[1], e[2]);
    var f := [e[1], e[2]];
    DigitRunAppend(Hex, f, []);
    assert f + [] == f && f[..2] == f && f[..1] == [e[1]] && [e[1]][..0] == [];
    assert ValueOf(Hex, f) == 16 * hi + lo;
  }

  /** Decoding undoes encoding for every byte string. */
  lemma {:induction false} UrlDecodeEncode(s: string)
    requires IsByteString(s)
    ensures UrlDecode(UrlEncode(s)) == s
  {
    if s != [] {
      var c := s[0];
      var e := EncodeChar(c);
      var t := UrlEncode(s[1..]);
      UrlDecodeEncode(s[1..]);
      assert UrlEncode(s) == e + t;
      if Unreserved(c) {
        assert (e + t)[1..] == t;
      } else {
        assert (e + t)[3..] == t;
        PercentEscapeDecodes(c);
      }
      assert [c] + s[1..] == s;
    }
  }

  // ---------------------------------------------------------------------------
  // ParseQuery
  // ---------------------------------------------------------------------------

  /**
   * The substrings the `&`-splitting loop visits, in order: each runs up to
   * the next `&` or the end, and a trailing `&` adds no empty substring.
   */
  function Segments(q: string): (segs: seq<string>)
    ensures forall i :: 0 <= i < |segs| ==> forall k :: 0 <= k < |segs[i]| ==> segs[i][k] != '&'
    decreases |q|
  {
    if q == [] then []
    else
      match FindChar(q, '&')
      case None => [q]
      case Some(k) => [q[..k]] + Segments(q[k + 1..])
  }

  /** The key and value of one segment, split at its first `=` and decoded; `None` without a `=`. */
  function SplitPair(pair: string): Option<(string, string)>
  {
    match FindChar(pair, '=')
    case None => None
    case Some(e) => Some((UrlDecode(pair[..e]), UrlDecode(pair[e + 1..])))
  }

  /** One step of the loop: a segment with a `=` stores its pair, overwriting the key. */
  function AddPair(params: ParamMap, pair: string): (r: ParamMap)
  {
    match SplitPair(pair)
    case None => params
    case Some((k, v)) => params[k := v]
  }

  function AddSegments(params: ParamMap, segs: seq<string>): ParamMap
    decreases |segs|
  {
    if segs == [] then params else AddSegments(AddPair(params, segs[0]), segs[1..])
  }

  /**
   * `ParseQuery`: every `k=v` segment stored in order into an empty map.  It
   * keeps exactly the keys of the query's pairs, each with the value of its
   * last occurrence; an empty query gives an empty map.
   */
  function ParseQuery(q: string): (r: ParamMap)
    ensures LastWins(r, map[], QueryPairs(q))
    ensures q == [] ==> r == map[]
  {
    AddSegmentsStores(map[], Segments(q));
    StorePairsLastWins(map[], PairsOf(Segments(q)));
    AddSegments(map[], Segments(q))
  }

  /** The decoded pairs of a query, in order, with the `=`-less segments dropped. */
  function QueryPairs(q: string): seq<(string, string)>
  {
    PairsOf(Segments(q))
  }

  function PairsOf(segs: seq<string>): seq<(string, string)>
  {
    if segs == [] then []
    else match SplitPair(segs[0])
      case None => PairsOf(segs[1..])
      case Some(p) => [p] + PairsOf(segs[1..])
  }

  /** The keys after storing: those of `base` and those of the pairs. */
  ghost predicate KeysOf(m: ParamMap, base: ParamMap, ps: seq<(string, string)>)
  {
    forall k :: k in m <==> k in base || exists i :: 0 <= i < |ps| && ps[i].0 == k
  }

  /** A key no pair mentions keeps its value from `base`. */
  ghost predicate Untouched(m: ParamMap, base: ParamMap, ps: seq<(string, string)>)
  {
    forall k :: k in base && (forall i :: 0 <= i < |ps| ==> ps[i].0 != k) ==> k in m && m[k] == base[k]
  }

  /** A pair no later pair overrides holds in `m`. */
  ghost predicate LastValues(m: ParamMap, ps: seq<(string, string)>)
  {
    forall i :: 0 <= i < |ps| && (forall j :: i < j < |ps| ==> ps[j].0 != ps[i].0) ==> ps[i].0 in m && m[ps[i].0] == ps[i].1
  }

  /** The reference meaning of a list of pairs: later pairs override earlier ones. */
  ghost predicate LastWins(m: ParamMap, base: ParamMap, ps: seq<(string, string)>)
  {
    KeysOf(m, base, ps) && Untouched(m, base, ps) && LastValues(m, ps)
  }

  /** Storing pairs one after another. */
  function StorePairs(base: ParamMap, ps: seq<(string, string)>): ParamMap
    decreases |ps|
  {
    if ps == [] then base else StorePairs(base[ps[0].0 := ps[0].1], ps[1..])
  }

  /** The segment loop stores exactly the decoded pairs, in order. */
  lemma {:induction false} AddSegmentsStores(base: ParamMap, segs: seq<string>)
    ensures AddSegments(base, segs) == StorePairs(base, PairsOf(segs))
    decreases |segs|
  {
    if segs != [] {
      AddSegmentsStores(AddPair(base, segs[0]), segs[1..]);
      match SplitPair(segs[0])
      case None =>
      case Some(p) =>
        assert ([p] + PairsOf(segs[1..]))[1..] == PairsOf(segs[1..]);
    }
  }

  /** Storing pairs adds exactly the pairs' keys. */
  lemma {:induction false} StorePairsKeys(base: ParamMap, ps: seq<(string, string)>)
    ensures KeysOf(StorePairs(base, ps), base, ps)
    decreases |ps|
  {
    if ps != [] {
      var p := ps[0];
      var rest := ps[1..];
      var base' := base[p.0 := p.1];
      var m := StorePairs(base', rest);
      StorePairsKeys(base', rest);
      forall k
        ensures k in m <==> k in base || exists i :: 0 <= i < |ps| && ps[i].0 == k
      {
        if exists i :: 0 <= i < |rest| && rest[i].0 == k {
          var i :| 0 <= i < |rest| && rest[i].0 == k;
          assert ps[i + 1].0 == k;
        }
        if exists i :: 0 <= i < |ps| && ps[i].0 == k {
          var i :| 0 <= i < |ps| && ps[i].0 == k;
          if i > 0 {
            assert rest[i - 1].0 == k;
          }
        }
      }
    }
  }

  /** Storing pairs leaves keys they do not mention alone. */
  lemma {:induction false} StorePairsUntouched(base: ParamMap, ps: seq<(string, string)>)
    ensures Untouched(StorePairs(base, ps), base, ps)
    decreases |ps|
  {
    if ps != [] {
      var p := ps[0];
      var rest := ps[1..];
      var base' := base[p.0 := p.1];
      StorePairsUntouched(base', rest);
      forall k | k in base && (forall i :: 0 <= i < |ps| ==> ps[i].0 != k)
        ensures k in StorePairs(base, ps) && StorePairs(base, ps)[k] == base[k]
      {
        assert ps[0].0 != k;
        assert forall i :: 0 <= i < |rest| ==> rest[i].0 == ps[i + 1].0;
      }
    }
  }

  /** A pair that no later pair overrides is what the key holds after storing. */
  lemma {:induction false} StorePairsLastValueAt(base: ParamMap, ps: seq<(string, string)>, i: nat)
    requires i < |ps|
    requires forall j :: i < j < |ps| ==> ps[j].0 != ps[i].0
    ensures ps[i].0 in StorePairs(base, ps) && StorePairs(base, ps)[ps[i].0] == ps[i].1
    decreases |ps|
  {
    var rest := ps[1..];
    var base' := base[ps[0].0 := ps[0].1];
    assert StorePairs(base, ps) == StorePairs(base', rest);
    if i == 0 {
      assert ps[0].0 in base' && base'[ps[0].0] == ps[0].1;
      forall j | 0 <= j < |rest|
        ensures rest[j].0 != ps[0].0
      {
        assert rest[j] == ps[j + 1];
      }
      StorePairsUntouched(base', rest);
    } else {
      assert rest[i - 1] == ps[i];
      forall j | i - 1 < j < |rest|
        ensures rest[j].0 != rest[i - 1].0
      {
        assert rest[j] == ps[j + 1];
      }
      StorePairsLastValueAt(base', rest, i - 1);
    }
  }

  /** After storing pairs, every key holds the value of its last pair. */
  lemma StorePairsLastValues(base: ParamMap, ps: seq<(string, string)>)
    ensures LastValues(StorePairs(base, ps), ps)
  {
    forall i | 0 <= i < |ps| && (forall j :: i < j < |ps| ==> ps[j].0 != ps[i].0)
      ensures ps[i].0 in StorePairs(base, ps) && StorePairs(base, ps)[ps[i].0] == ps[i].1
    {
      StorePairsLastValueAt(base, ps, i);
    }
  }

  /** Storing pairs in order leaves every key at the value of its last pair, and other keys alone. */
  lemma StorePairsLastWins(base: ParamMap, ps: seq<(string, string)>)
    ensures LastWins(StorePairs(base, ps), base, ps)
  {
    StorePairsKeys(base, ps);
    StorePairsUntouched(base, ps);
    StorePairsLastValues(base, ps);
  }

  // ---------------------------------------------------------------------------
  // Building a query: the client-side inverse of ParseQuery
  // ---------------------------------------------------------------------------

  predicate PairsAreBytes(ps: seq<(string, string)>)
  {
    forall i :: 0 <= i < |ps| ==> IsByteString(ps[i].0) && IsByteString(ps[i].1)
  }

  function EncodePair(p: (string, string)): (r: string)
    requires IsByteString(p.0) && IsByteString(p.1)
  {
    UrlEncode(p.0) + "=" + UrlEncode(p.1)
  }

  /** `k=v` pairs, each component percent-encoded, joined with `&`. */
  function EncodeQuery(ps: seq<(string, string)>): (q: string)
    requires PairsAreBytes(ps)
    ensures ps != [] ==> |q| > 0
    ensures forall i :: 0 <= i < |q| ==> q[i] != ' ' && q[i] != '\r'
  {
    if |ps| == 0 then ""
    else if |ps| == 1 then EncodePair(ps[0])
    else EncodePair(ps[0]) + "&" + EncodeQuery(ps[1..])
  }

  /** An encoded pair splits at its own `=` back into the original key and value. */
  lemma SplitEncodedPair(p: (string, string))
    requires IsByteString(p.0) && IsByteString(p.1)
    ensures SplitPair(EncodePair(p)) == Some(p)
  {
    var ek := UrlEncode(p.0);
    var ev := UrlEncode(p.1);
    FindCharAfter(ek, '=', ev);
    assert EncodePair(p) == ek + ['='] + ev;
    assert EncodePair(p)[..|ek|] == ek;
    assert EncodePair(p)[|ek| + 1..] == ev;
    UrlDecodeEncode(p.0);
    UrlDecodeEncode(p.1);
  }

  /** An encoded pair holds no `&`, so it is one whole segment. */
  lemma EncodedPairHasNoAmp(p: (string, string))
    requires IsByteString(p.0) && IsByteString(p.1)
    ensures forall k :: 0 <= k < |EncodePair(p)| ==> EncodePair(p)[k] != '&'
  {
    var ek := UrlEncode(p.0);
    var ev := UrlEncode(p.1);
    var first := EncodePair(p);
    assert forall k :: 0 <= k < |first| ==> first[k] == (if k < |ek| then ek[k] else if k == |ek| then '=' else ev[k - |ek| - 1]);
  }

  /** A leading `&`-free stretch followed by `&` is the first segment. */
  lemma SegmentsCons(first: string, rest: string)
    requires forall k :: 0 <= k < |first| ==> first[k] != '&'
    ensures Segments(first + "&" + rest) == [first] + Segments(rest)
  {
    var q := first + "&" + rest;
    FindCharAfter(first, '&', rest);
    assert q[..|first|] == first;
    assert q[|first| + 1..] == rest;
  }

  /** A segment that splits into a pair contributes that pair in front. */
  lemma PairsOfCons(seg: string, segs: seq<string>, p: (string, string))
    requires SplitPair(seg) == Some(p)
    ensures PairsOf([seg] + segs) == [p] + PairsOf(segs)
  {
    assert ([seg] + segs)[1..] == segs;
  }

  /** A one-pair query yields that pair. */
  lemma QueryPairsEncodeOne(ps: seq<(string, string)>)
    requires PairsAreBytes(ps) && |ps| == 1
    ensures QueryPairs(EncodeQuery(ps)) == ps
  {
    var first := EncodePair(ps[0]);
    SplitEncodedPair(ps[0]);
    EncodedPairHasNoAmp(ps[0]);
    assert EncodeQuery(ps) == first;
    assert Segments(first) == [first];
    assert PairsOf([first]) == [ps[0]] + PairsOf([]);
  }

  /** One more encoded pair in front of a query whose pairs are known. */
  lemma QueryPairsEncodeCons(ps: seq<(string, string)>)
    requires PairsAreBytes(ps) && |ps| > 1
    requires QueryPairs(EncodeQuery(ps[1..])) == ps[1..]
    ensures QueryPairs(EncodeQuery(ps)) == ps
  {
    var first := EncodePair(ps[0]);
    var rest := EncodeQuery(ps[1..]);
    SplitEncodedPair(ps[0]);
    EncodedPairHasNoAmp(ps[0]);
    SegmentsCons(first, rest);
    assert EncodeQuery(ps) == first + "&" + rest;
    PairsOfCons(first, Segments(rest), ps[0]);
  }

  /** Parsing an encoded query yields the encoded pairs, in order. */
  lemma {:induction false} QueryPairsEncode(ps: seq<(string, string)>)
    requires PairsAreBytes(ps)
    ensures QueryPairs(EncodeQuery(ps)) == ps
  {
    if |ps| == 1 {
      QueryPairsEncodeOne(ps);
    } else if |ps| > 1 {
      assert PairsAreBytes(ps[1..]);
      QueryPairsEncode(ps[1..]);
      QueryPairsEncodeCons(ps);
    }
  }

  /** A query built from pairs parses back to those pairs with the last value of each key winning. */
  lemma ParseEncodedQuery(ps: seq<(string, string)>)
    requires PairsAreBytes(ps)
    ensures LastWins(ParseQuery(EncodeQuery(ps)), map[], ps)
  {
    QueryPairsEncode(ps);
  }
}
