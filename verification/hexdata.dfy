/**
 * Memory contents as hex text: the decoding loop of `/memory/write`
 * (`src/MCPx64dbg.cpp`), which reads the data parameter two characters at a
 * time through `std::stoi(pair, nullptr, 16)`, and its relation to the
 * two-digits-per-byte rendering used by `/memory/read` and
 * `/assembler/assemble`.
 */
module HexData {
  import opened Wrappers
  import opened Numerals

  /**
   * `std::stoi(pair, nullptr, 16)` on a two-character pair, cast to
   * `unsigned char`: `invalid_argument` unless the pair converts something;
   * otherwise the value of its leading hex digits, both or just the first.
   */
  function PairByte(a: char, b: char): (r: Result<byte, StdException>)
    ensures r.Failure? <==> !HexPairParses(a, b)
    ensures r.Failure? ==> r.error == InvalidArgument("stoi")
    ensures r.Success? ==> r.value == ValueOf(Hex, [a, b][..DigitRun(Hex, [a, b])])
  {
    if HexPairParses(a, b) then Success(HexPairValue(a, b)) else Failure(InvalidArgument("stoi"))
  }

  /** Every complete pair of the loop converts. */
  predicate PairsParse(s: string)
  {
    forall i :: 0 <= i < |s| / 2 ==> HexPairParses(s[2 * i], s[2 * i + 1])
  }

  /**
   * The `/memory/write` loop: one byte per complete pair, left to right; a
   * lone last character is ignored; the first pair that does not convert
   * throws.
   */
  function DecodeHexData(s: string): (r: Result<seq<byte>, StdException>)
    ensures r.Success? <==> PairsParse(s)
    ensures r.Success? ==> |r.value| == |s| / 2
    ensures r.Failure? ==> r.error == InvalidArgument("stoi")
    decreases |s|
  {
    if |s| < 2 then Success([])
    else
      var rest := DecodeHexData(s[2..]);
      assert PairsParse(s) <==> HexPairParses(s[0], s[1]) && PairsParse(s[2..]) by {
        PairsParseStep(s);
      }
      match PairByte(s[0], s[1])
      case Failure(e) => Failure(e)
      case Success(b) =>
        match rest
        case Failure(e) => Failure(e)
        case Success(bs) => Success([b] + bs)
  }

  /** The pairs of `s` are its first pair followed by the pairs of the rest. */
  lemma PairsParseStep(s: string)
    requires |s| >= 2
    ensures PairsParse(s) <==> HexPairParses(s[0], s[1]) && PairsParse(s[2..])
  {
    var t := s[2..];
    assert |t| / 2 == |s| / 2 - 1;
    if PairsParse(s) {
      assert HexPairParses(s[2 * 0], s[2 * 0 + 1]);
      forall i | 0 <= i < |t| / 2
        ensures HexPairParses(t[2 * i], t[2 * i + 1])
      {
        assert t[2 * i] == s[2 * (i + 1)] && t[2 * i + 1] == s[2 * (i + 1) + 1];
      }
    }
    if HexPairParses(s[0], s[1]) && PairsParse(t) {
      forall i | 0 <= i < |s| / 2
        ensures HexPairParses(s[2 * i], s[2 * i + 1])
      {
        if i > 0 {
          assert s[2 * i] == t[2 * (i - 1)] && s[2 * i + 1] == t[2 * (i - 1) + 1];
        }
      }
    }
  }

  /** The rendering of a buffer decodes back to that buffer. */
  lemma {:induction false} DecodeBytesHex(bs: seq<byte>)
    ensures DecodeHexData(BytesHex(bs)) == Success(bs)
  {
    if bs != [] {
      var h := ByteHex(bs[0]);
      var t := BytesHex(bs[1..]);
      DecodeBytesHex(bs[1..]);
      assert BytesHex(bs) == h + t;
      assert (h + t)[2..] == t;
      assert (h + t)[0] == h[0] && (h + t)[1] == h[1];
      assert [h[0], h[1]] == h;
      assert !IsDigitOf(Hex, 'x') && !IsDigitOf(Hex, 'X');
      assert DigitRun(Hex, h) == 2 by {
        DigitRunAppend(Hex, h, []);
        assert h + [] == h;
      }
      assert [bs[0]] + bs[1..] == bs;
    }
  }

  /** A lone trailing character after complete pairs changes nothing. */
  lemma {:induction false} TrailingCharIgnored(s: string, c: char)
    requires |s| % 2 == 0
    ensures DecodeHexData(s + [c]) == DecodeHexData(s)
    decreases |s|
  {
    if |s| >= 2 {
      assert (s + [c])[2..] == s[2..] + [c];
      TrailingCharIgnored(s[2..], c);
    }
  }
}
