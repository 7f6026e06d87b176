/**
 * Integer text conversions the plugin borrows from the C++ standard library:
 * the base-0 parse behind `std::stoull` and `std::stoi`, and the lowercase
 * hexadecimal and decimal output of `std::ostream` (`std::hex`,
 * `std::setw(2) << std::setfill('0')`, plain `<<`).
 *
 * The plugin is built for 32-bit x86, so the debugger's pointer-width
 * integer `duint` holds values below 2^32.
 */
module Numerals {
  import opened Wrappers

  /** Values representable by `unsigned long long`. */
  const U64_LIMIT: nat := 0x1_0000_0000_0000_0000
  /** Values representable by `duint` on the 32-bit build. */
  const DUINT_LIMIT: nat := 0x1_0000_0000
  /** Largest `int` (and, on Windows, largest `long`). */
  const INT_MAX: nat := 0x7fff_ffff

  type byte = b: nat | b < 256
  type duint = d: nat | d < DUINT_LIMIT

  /** Assigning an `unsigned long long` to a 32-bit `duint` keeps the low 32 bits. */
  function Narrow(v: nat): (d: duint)
  {
    v % DUINT_LIMIT
  }

  // ---------------------------------------------------------------------------
  // Digits
  // ---------------------------------------------------------------------------

  datatype Radix = Oct | Dec | Hex

  function Base(r: Radix): nat
  {
    match r
    case Oct => 8
    case Dec => 10
    case Hex => 16
  }

  predicate IsDigitOf(r: Radix, c: char)
  {
    match r
    case Oct => '0' <= c <= '7'
    case Dec => '0' <= c <= '9'
    case Hex => '0' <= c <= '9' || 'a' <= c <= 'f' || 'A' <= c <= 'F'
  }

  predicate AllDigits(r: Radix, s: string)
  {
    forall i :: 0 <= i < |s| ==> IsDigitOf(r, s[i])
  }

  /** The characters `std::hex` output uses. */
  predicate IsLowerHexDigit(c: char)
  {
    '0' <= c <= '9' || 'a' <= c <= 'f'
  }

  predicate AllLowerHex(s: string)
  {
    forall i :: 0 <= i < |s| ==> IsLowerHexDigit(s[i])
  }

  function DigitValue(r: Radix, c: char): (d: nat)
    requires IsDigitOf(r, c)
    ensures d < Base(r)
  {
    if '0' <= c <= '9' then c as nat - '0' as nat
    else if 'a' <= c <= 'f' then c as nat - 'a' as nat + 10
    else c as nat - 'A' as nat + 10
  }

  /** The number a digit string denotes, most significant digit first. */
  function ValueOf(r: Radix, s: string): nat
    requires AllDigits(r, s)
  {
    if |s| == 0 then 0 else ValueOf(r, s[..|s| - 1]) * Base(r) + DigitValue(r, s[|s| - 1])
  }

  /** Length of the longest prefix of `s` made of digits of radix `r`. */
  function DigitRun(r: Radix, s: string): (n: nat)
    ensures n <= |s|
    ensures AllDigits(r, s[..n])
    ensures n == |s| || !IsDigitOf(r, s[n])
  {
    if |s| > 0 && IsDigitOf(r, s[0]) then 1 + DigitRun(r, s[1..]) else 0
  }

  /** A digit run followed by a non-digit is consumed exactly. */
  lemma {:induction false} DigitRunAppend(r: Radix, ds: string, rest: string)
    requires AllDigits(r, ds)
    requires rest == [] || !IsDigitOf(r, rest[0])
    ensures DigitRun(r, ds + rest) == |ds|
  {
    if ds != [] {
      assert (ds + rest)[1..] == ds[1..] + rest;
      DigitRunAppend(r, ds[1..], rest);
    }
  }

  /** Leading zeros do not change the value of a digit string. */
  lemma {:induction false} LeadingZero(r: Radix, ds: string)
    requires AllDigits(r, ds)
    ensures AllDigits(r, "0" + ds)
    ensures ValueOf(r, "0" + ds) == ValueOf(r, ds)
  {
    assert forall i :: 0 < i < |"0" + ds| ==> ("0" + ds)[i] == ds[i - 1];
    if ds != [] {
      assert ("0" + ds)[..|ds|] == "0" + ds[..|ds| - 1];
      LeadingZero(r, ds[..|ds| - 1]);
    }
  }

  // ---------------------------------------------------------------------------
  // Parsing: strtoull / strtol with base 0, as wrapped by std::stoull / std::stoi
  // ---------------------------------------------------------------------------

  /**
   * A `0x`/`0X` prefix with no hex digit after it.  The Microsoft C runtime's
   * `strtoull`/`strtol` (base 0 or 16) consume such a prefix, find no digit,
   * and report that nothing was converted, so `std::stoull` and `std::stoi`
   * throw `invalid_argument` on it.
   */
  predicate BareHexPrefix(s: string)
  {
    |s| >= 2 && s[0] == '0' && (s[1] == 'x' || s[1] == 'X') && (|s| == 2 || !IsDigitOf(Hex, s[2]))
  }

  /**
   * The radix and digit string a base-0 `strtoull`/`strtol` consumes from the
   * front of `s`: `0x`/`0X` selects hexadecimal, any other leading `0`
   * selects octal, and a leading 1-9 selects decimal; the parse stops at the
   * first character that is not a digit of that radix.  `None` when nothing
   * is converted: no leading digit, or a bare hex prefix.
   */
  function Base0Digits(s: string): (d: Option<(Radix, string)>)
    ensures d.Some? <==> |s| > 0 && IsDigitOf(Dec, s[0]) && !BareHexPrefix(s)
    ensures d.Some? ==> |d.value.1| > 0 && AllDigits(d.value.0, d.value.1)
  {
    if |s| >= 2 && s[0] == '0' && (s[1] == 'x' || s[1] == 'X') then
      if |s| >= 3 && IsDigitOf(Hex, s[2]) then Some((Hex, s[2..][..DigitRun(Hex, s[2..])])) else None
    else if |s| > 0 && s[0] == '0' then
      Some((Oct, s[..DigitRun(Oct, s)]))
    else if |s| > 0 && IsDigitOf(Dec, s[0]) then
      Some((Dec, s[..DigitRun(Dec, s)]))
    else
      None
  }

  /** The exceptions `std::stoull` and `std::stoi` throw. */
  datatype StdException = InvalidArgument(api: string) | OutOfRange(api: string)

  /** `e.what()` of those exceptions, in the wording of the MSVC standard library. */
  function What(x: StdException): string
  {
    match x
    case InvalidArgument(api) => "invalid " + api + " argument"
    case OutOfRange(api) => api + " argument out of range"
  }

  /** The parsed value, or `out_of_range` when it exceeds `limit`. */
  function InRange(v: nat, limit: nat, api: string): (r: Result<nat, StdException>)
  {
    if v <= limit then Success(v) else Failure(OutOfRange(api))
  }

  /** `std::stoull(s, nullptr, 0)`. */
  function Stoull(s: string): (r: Result<nat, StdException>)
    ensures r.Success? ==> r.value < U64_LIMIT
    ensures r == Failure(InvalidArgument("stoull")) <==> |s| == 0 || !IsDigitOf(Dec, s[0]) || BareHexPrefix(s)
  {
    match Base0Digits(s)
    case None => Failure(InvalidArgument("stoull"))
    case Some((radix, ds)) => InRange(ValueOf(radix, ds), U64_LIMIT - 1, "stoull")
  }

  /** `std::stoi(s, nullptr, 0)`; `long` is 32 bits wide on Windows. */
  function Stoi(s: string): (r: Result<nat, StdException>)
    ensures r.Success? ==> r.value <= INT_MAX
    ensures r == Failure(InvalidArgument("stoi")) <==> |s| == 0 || !IsDigitOf(Dec, s[0]) || BareHexPrefix(s)
  {
    match Base0Digits(s)
    case None => Failure(InvalidArgument("stoi"))
    case Some((radix, ds)) => InRange(ValueOf(radix, ds), INT_MAX, "stoi")
  }

  /** `0x`/`0X` and hex digits, up to the first non-hex character, parse as hexadecimal. */
  lemma StoullHexLiteral(x: char, ds: string, rest: string)
    requires x == 'x' || x == 'X'
    requires |ds| > 0 && AllDigits(Hex, ds)
    requires rest == [] || !IsDigitOf(Hex, rest[0])
    ensures Stoull(['0', x] + ds + rest) == InRange(ValueOf(Hex, ds), U64_LIMIT - 1, "stoull")
  {
    var s := ['0', x] + ds + rest;
    var t := ds + rest;
    assert s[2..] == t;
    assert |s| >= 3 && s[0] == '0' && s[1] == x && s[2] == ds[0];
    DigitRunAppend(Hex, ds, rest);
    assert t[..|ds|] == ds;
    assert Base0Digits(s) == Some((Hex, ds));
  }

  /** A leading `0` selects octal, and the parse stops at the first non-octal character. */
  lemma StoullOctalLiteral(ds: string, rest: string)
    requires AllDigits(Oct, ds)
    requires rest == [] || !IsDigitOf(Oct, rest[0])
    requires |ds| > 0 || rest == [] || (rest[0] != 'x' && rest[0] != 'X')
    ensures Stoull("0" + ds + rest) == InRange(ValueOf(Oct, ds), U64_LIMIT - 1, "stoull")
  {
    var s := "0" + ds + rest;
    assert |s| >= 2 ==> s[1] != 'x' && s[1] != 'X' by {
      if |ds| > 0 {
        assert s[1] == ds[0];
      } else if |s| >= 2 {
        assert s[1] == rest[0];
      }
    }
    LeadingZero(Oct, ds);
    assert s == ("0" + ds) + rest;
    DigitRunAppend(Oct, "0" + ds, rest);
    assert s[..|ds| + 1] == "0" + ds;
  }

  /** A leading 1-9 selects decimal, and the parse stops at the first non-digit. */
  lemma StoullDecimalLiteral(ds: string, rest: string)
    requires |ds| > 0 && ds[0] != '0' && AllDigits(Dec, ds)
    requires rest == [] || !IsDigitOf(Dec, rest[0])
    ensures Stoull(ds + rest) == InRange(ValueOf(Dec, ds), U64_LIMIT - 1, "stoull")
  {
    DigitRunAppend(Dec, ds, rest);
    assert (ds + rest)[..|ds|] == ds;
  }

  // ---------------------------------------------------------------------------
  // Two-character fields read in base 16
  // ---------------------------------------------------------------------------

  /**
   * A two-character field read in base 16, by `std::stoi(pair, nullptr, 16)`
   * or by `istream >> std::hex`, converts something: its first character is
   * a hex digit and the two are not a bare `0x`/`0X` prefix.
   */
  predicate HexPairParses(a: char, b: char)
  {
    IsDigitOf(Hex, a) && !BareHexPrefix([a, b])
  }

  /** The value read from such a field: its leading run of hex digits, one or two of them. */
  function HexPairValue(a: char, b: char): (v: nat)
    requires HexPairParses(a, b)
    ensures v < 256
    ensures v == ValueOf(Hex, [a, b][..DigitRun(Hex, [a, b])])
  {
    var f := [a, b];
    assert f[1..] == [b] && [b][1..] == [];
    assert DigitRun(Hex, f) == if IsDigitOf(Hex, b) then 2 else 1;
    assert f[..1] == [a] && f[..2] == f && [a][..0] == [];
    assert ValueOf(Hex, [a]) == DigitValue(Hex, a);
    assert IsDigitOf(Hex, b) ==> ValueOf(Hex, f) == 16 * DigitValue(Hex, a) + DigitValue(Hex, b);
    if IsDigitOf(Hex, b) then 16 * DigitValue(Hex, a) + DigitValue(Hex, b) else DigitValue(Hex, a)
  }

  // ---------------------------------------------------------------------------
  // Output: std::hex and decimal stream insertion
  // ---------------------------------------------------------------------------

  function HexChar(d: nat): (c: char)
    requires d < 16
    ensures IsLowerHexDigit(c) && IsDigitOf(Hex, c) && DigitValue(Hex, c) == d
  {
    if d < 10 then ('0' as nat + d) as char else ('a' as nat + d - 10) as char
  }

  function DecChar(d: nat): (c: char)
    requires d < 10
    ensures IsDigitOf(Dec, c) && DigitValue(Dec, c) == d
  {
    ('0' as nat + d) as char
  }

  /** `os << std::hex << v`: lowercase hex digits without leading zeros. */
  function HexDigits(v: nat): (s: string)
    ensures |s| > 0 && AllLowerHex(s) && AllDigits(Hex, s)
    ensures ValueOf(Hex, s) == v
    ensures s[0] == '0' ==> v == 0 && |s| == 1
    decreases v
  {
    if v < 16 then [HexChar(v)] else HexDigits(v / 16) + [HexChar(v % 16)]
  }

  /** `os << v` in the default decimal mode. */
  function Decimal(v: nat): (s: string)
    ensures |s| > 0 && AllDigits(Dec, s)
    ensures ValueOf(Dec, s) == v
    ensures s[0] == '0' ==> v == 0 && |s| == 1
    decreases v
  {
    if v < 10 then [DecChar(v)] else Decimal(v / 10) + [DecChar(v % 10)]
  }

  /** `os << std::hex << std::setw(2) << std::setfill('0') << (int)b`. */
  function ByteHex(b: byte): (s: string)
    ensures |s| == 2 && AllLowerHex(s) && AllDigits(Hex, s)
    ensures ValueOf(Hex, s) == b
  {
    var s := [HexChar(b / 16), HexChar(b % 16)];
    assert s[..1] == [HexChar(b / 16)];
    assert s[..1][..0] == [];
    assert ValueOf(Hex, s[..1]) == b / 16;
    s
  }

  /** A byte buffer as a flat hex string, two zero-padded digits per byte. */
  function BytesHex(bs: seq<byte>): (s: string)
    ensures |s| == 2 * |bs| && AllLowerHex(s)
  {
    if bs == [] then "" else ByteHex(bs[0]) + BytesHex(bs[1..])
  }

  /** Decimal output read back by `std::stoull`. */
  lemma StoullDecimal(v: nat)
    requires v < U64_LIMIT
    ensures Stoull(Decimal(v)) == Success(v)
  {
    var s := Decimal(v);
    if s[0] == '0' {
      assert s == "0" + [];
      StoullOctalLiteral([], []);
    } else {
      StoullDecimalLiteral(s, []);
      assert s + [] == s;
    }
  }

  /** Decimal output read back by `std::stoi`. */
  lemma StoiDecimal(v: nat)
    requires v <= INT_MAX
    ensures Stoi(Decimal(v)) == Success(v)
  {
    var s := Decimal(v);
    if s[0] == '0' {
      assert s == "0" + [];
      LeadingZero(Oct, []);
      assert s[..DigitRun(Oct, s)] == s;
    } else {
      DigitRunAppend(Dec, s, []);
      assert s + [] == s;
    }
  }
}
