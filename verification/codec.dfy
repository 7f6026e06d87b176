/**
 * The wire codec of `include/mcp_common.h`: JSON string escaping, the
 * `0x`-prefixed hexadecimal rendering of addresses, JSON booleans, and a
 * small JSON value type whose rendering reproduces, byte for byte, the text
 * the handlers stream into their `std::ostringstream`.
 */
module Codec {
  import opened Wrappers
  import opened Numerals

  // ---------------------------------------------------------------------------
  // JsonEscape
  // ---------------------------------------------------------------------------

  /** The five characters `JsonEscape` rewrites. */
  predicate NeedsEscape(c: char)
  {
    c == '"' || c == '\\' || c == '\n' || c == '\r' || c == '\t'
  }

  predicate NoEscapes(s: string)
  {
    forall i :: 0 <= i < |s| ==> !NeedsEscape(s[i])
  }

  /** Number of characters of `s` that `JsonEscape` rewrites. */
  function CountEscapes(s: string): nat
  {
    if s == [] then 0 else (if NeedsEscape(s[0]) then 1 else 0) + CountEscapes(s[1..])
  }

  function EscapeChar(c: char): string
  {
    match c
    case '"' => "\\\""
    case '\\' => "\\\\"
    case '\n' => "\\n"
    case '\r' => "\\r"
    case '\t' => "\\t"
    case _ => [c]
  }

  /**
   * Quote, backslash, LF, CR and TAB become two-character escapes; every
   * other character is copied.  The result holds no raw LF, CR or TAB, grows
   * by one character per rewritten character, and is `s` itself when nothing
   * needs rewriting.
   */
  function JsonEscape(s: string): (r: string)
    ensures |r| == |s| + CountEscapes(s)
    ensures forall i :: 0 <= i < |r| ==> r[i] != '\n' && r[i] != '\r' && r[i] != '\t'
    ensures NoEscapes(s) ==> r == s
  {
    if s == [] then [] else EscapeChar(s[0]) + JsonEscape(s[1..])
  }

  /**
   * Reads the inside of a JSON string back: the five two-character escapes
   * are undone, any other backslash sequence and any raw quote is rejected.
   */
  function Unescape(r: string): Option<string>
  {
    if r == [] then Some([])
    else if r[0] == '"' then None
    else if r[0] != '\\' then
      match Unescape(r[1..])
      case None => None
      case Some(rest) => Some([r[0]] + rest)
    else if |r| < 2 then None
    else
      var c := match r[1]
        case '"' => Some('"')
        case '\\' => Some('\\')
        case 'n' => Some('\n')
        case 'r' => Some('\r')
        case 't' => Some('\t')
        case _ => None;
      match (c, Unescape(r[2..]))
      case (Some(x), Some(rest)) => Some([x] + rest)
      case _ => None
  }

  /** Undoing the five escapes recovers the input; in particular no raw quote survives escaping. */
  lemma {:induction false} UnescapeJsonEscape(s: string)
    ensures Unescape(JsonEscape(s)) == Some(s)
  {
    if s != [] {
      UnescapeJsonEscape(s[1..]);
      var e := EscapeChar(s[0]);
      var tail := JsonEscape(s[1..]);
      assert JsonEscape(s) == e + tail;
      if NeedsEscape(s[0]) {
        assert (e + tail)[2..] == tail;
      } else {
        assert (e + tail)[1..] == tail;
      }
      assert [s[0]] + s[1..] == s;
    }
  }

  // ---------------------------------------------------------------------------
  // ToHex, BoolToJson
  // ---------------------------------------------------------------------------

  /** `"0x"` and the lowercase hex digits of `v`, no leading zeros (`ToHex(0) == "0x0"`). */
  function ToHex(v: duint): (r: string)
    ensures |r| >= 3 && r[..2] == "0x"
    ensures AllLowerHex(r[2..]) && ValueOf(Hex, r[2..]) == v
    ensures r[2] == '0' ==> v == 0 && |r| == 3
    ensures NoEscapes(r)
  {
    var r := "0x" + HexDigits(v);
    assert r[2..] == HexDigits(v);
    assert forall i :: 2 <= i < |r| ==> IsLowerHexDigit(r[i]);
    r
  }

  /** The address rendering read back by `std::stoull(_, nullptr, 0)` yields the address. */
  lemma {:induction false} ToHexParses(v: duint)
    ensures Stoull(ToHex(v)) == Success(v)
  {
    var ds := HexDigits(v);
    assert ToHex(v) == ['0', 'x'] + ds + [];
    StoullHexLiteral('x', ds, []);
  }

  /** Exactly one of the two JSON literals, `true` precisely for `true`. */
  function BoolToJson(b: bool): (r: string)
    ensures r == "true" || r == "false"
    ensures r == "true" <==> b
  {
    if b then "true" else "false"
  }

  // ---------------------------------------------------------------------------
  // JSON values as the handlers print them
  // ---------------------------------------------------------------------------

  /**
   * A JSON value in the form the handlers print it.  `JStr` is printed through
   * `JsonEscape`; `JVerbatim` is a string the handler prints between quotes
   * WITHOUT escaping (hex renderings, and a few echoed names).
   */
  datatype Json =
    | JBool(b: bool)
    | JNum(n: nat)
    | JStr(s: string)
    | JVerbatim(raw: string)
    | JArr(items: seq<Json>)
    | JObj(members: seq<Member>)

  datatype Member = Member(key: string, value: Json)

  /**
   * Text of a JSON value: `,` between elements, no whitespace, keys printed
   * as given.  The first character tells which kind of value follows, and
   * objects, arrays and strings end with their closing delimiter.
   */
  function Render(j: Json): (r: string)
    ensures |r| > 0
    ensures r[0] == '{' <==> j.JObj?
    ensures r[0] == '[' <==> j.JArr?
    ensures r[0] == '"' <==> j.JStr? || j.JVerbatim?
    ensures r[0] == 't' || r[0] == 'f' <==> j.JBool?
    ensures IsDigitOf(Dec, r[0]) <==> j.JNum?
    ensures j.JObj? ==> r[|r| - 1] == '}'
    ensures j.JArr? ==> r[|r| - 1] == ']'
    ensures j.JStr? || j.JVerbatim? ==> r[|r| - 1] == '"'
    decreases j, 1
  {
    match j
    case JBool(b) => BoolToJson(b)
    case JNum(n) => Decimal(n)
    case JStr(s) => "\"" + JsonEscape(s) + "\""
    case JVerbatim(raw) => "\"" + raw + "\""
    case JArr(items) => "[" + RenderItems(items) + "]"
    case JObj(ms) => "{" + RenderMembers(ms) + "}"
  }

  function RenderItems(items: seq<Json>): string
    decreases items, 0
  {
    if |items| == 0 then ""
    else if |items| == 1 then Render(items[0])
    else Render(items[0]) + "," + RenderItems(items[1..])
  }

  function RenderMembers(ms: seq<Member>): string
    decreases ms, 0
  {
    if |ms| == 0 then ""
    else if |ms| == 1 then RenderMember(ms[0])
    else RenderMember(ms[0]) + "," + RenderMembers(ms[1..])
  }

  function RenderMember(m: Member): string
    decreases m, 0
  {
    "\"" + m.key + "\":" + Render(m.value)
  }

  /** A member in front of a non-empty member list is printed before a comma. */
  lemma RenderMembersCons(m: Member, ms: seq<Member>)
    requires ms != []
    ensures RenderMembers([m] + ms) == RenderMember(m) + "," + RenderMembers(ms)
  {
    assert ([m] + ms)[0] == m && ([m] + ms)[1..] == ms;
  }

  /** Printing a string without escaping is harmless when it holds none of the five characters. */
  lemma VerbatimIsEscaped(s: string)
    requires NoEscapes(s)
    ensures Render(JVerbatim(s)) == Render(JStr(s))
  {
  }

  /** A rendered `JStr` reads back to exactly the string it carries. */
  lemma {:induction false} StringRoundTrip(s: string)
    ensures var t := Render(JStr(s));
      |t| >= 2 && t[0] == '"' && t[|t| - 1] == '"' && Unescape(t[1..|t| - 1]) == Some(s)
  {
    var t := Render(JStr(s));
    assert t[1..|t| - 1] == JsonEscape(s);
    UnescapeJsonEscape(s);
  }

  /** Appending an element adds one comma and its text, except to an empty list. */
  lemma {:induction false} RenderItemsSnoc(items: seq<Json>, x: Json)
    ensures RenderItems(items + [x]) == if items == [] then Render(x) else RenderItems(items) + "," + Render(x)
    decreases |items|
  {
    if |items| == 1 {
      assert (items + [x])[1..] == [x];
    } else if |items| > 1 {
      assert (items + [x])[1..] == items[1..] + [x];
      RenderItemsSnoc(items[1..], x);
    }
  }

  /**
   * The handlers' list loop: `[`, then each element preceded by a comma
   * unless it is the first, then `]`.  It prints exactly the JSON array of
   * the elements: one rendering per element, a comma between neighbours,
   * none after the last.
   */
  method RenderList(items: seq<Json>) returns (out: string)
    ensures out == Render(JArr(items))
  {
    out := "[";
    var i := 0;
    while i < |items|
      invariant 0 <= i <= |items|
      invariant out == "[" + RenderItems(items[..i])
    {
      if i > 0 {
        out := out + ",";
      }
      out := out + Render(items[i]);
      RenderItemsSnoc(items[..i], items[i]);
      assert items[..i + 1] == items[..i] + [items[i]];
      i := i + 1;
    }
    assert items[..i] == items;
    out := out + "]";
  }
}
