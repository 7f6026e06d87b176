/**
 * String primitives the protocol layer relies on: `std::string::find` (the
 * first occurrence of a pattern), the ASCII `::tolower` transform used by the
 * register and flag name parsers, and CRLF-terminated header blocks.
 */
module Text {
  import opened Wrappers

  const CRLF: string := "\r\n"
  const CRLFCRLF: string := "\r\n\r\n"

  predicate OccursAt(s: string, pat: string, j: int)
  {
    0 <= j && j + |pat| <= |s| && s[j..j + |pat|] == pat
  }

  /** `s.find(pat)`: the first position where `pat` occurs, `None` for `npos`. */
  function IndexOf(s: string, pat: string): (r: Option<nat>)
    requires |pat| > 0
    ensures r.Some? ==> r.value + |pat| <= |s|
    decreases |s|
  {
    if |s| < |pat| then None
    else if s[..|pat|] == pat then Some(0)
    else
      match IndexOf(s[1..], pat)
      case None => None
      case Some(k) => Some(k + 1)
  }

  /** `IndexOf` finds an occurrence, and no occurrence comes before it; `None` means there is none. */
  lemma {:induction false} IndexOfIsFirst(s: string, pat: string)
    requires |pat| > 0
    ensures var r := IndexOf(s, pat);
      && (r.Some? ==> OccursAt(s, pat, r.value))
      && (r.Some? ==> forall j :: 0 <= j < r.value ==> !OccursAt(s, pat, j))
      && (r.None? ==> forall j :: !OccursAt(s, pat, j))
    decreases |s|
  {
    if |s| >= |pat| && s[..|pat|] != pat {
      IndexOfIsFirst(s[1..], pat);
      assert forall j :: 0 < j ==> (OccursAt(s, pat, j) <==> OccursAt(s[1..], pat, j - 1));
    }
  }

  /** `s.find(c)` for a single character: its first position, `None` for `npos`. */
  function FindChar(s: string, c: char): (r: Option<nat>)
    ensures r.Some? ==> r.value < |s| && s[r.value] == c
    ensures r.Some? ==> forall j :: 0 <= j < r.value ==> s[j] != c
    ensures r.None? ==> forall j :: 0 <= j < |s| ==> s[j] != c
  {
    if s == [] then None
    else if s[0] == c then Some(0)
    else Shift(FindChar(s[1..], c), 1)
  }

  /** The first `c` after a stretch free of `c` is found right after that stretch. */
  lemma {:induction false} FindCharAfter(a: string, c: char, t: string)
    requires forall i :: 0 <= i < |a| ==> a[i] != c
    ensures FindChar(a + [c] + t, c) == Some(|a|)
  {
    if a != [] {
      assert (a + [c] + t)[1..] == a[1..] + [c] + t;
      FindCharAfter(a[1..], c, t);
    }
  }

  /** A position found in a suffix, seen from `n` characters earlier. */
  function Shift(o: Option<nat>, n: nat): Option<nat>
  {
    match o
    case None => None
    case Some(k) => Some(n + k)
  }

  /** A prefix that never holds the pattern's first character is skipped over. */
  lemma {:induction false} IndexOfSkip(a: string, t: string, pat: string)
    requires |pat| > 0
    requires forall i :: 0 <= i < |a| ==> a[i] != pat[0]
    ensures IndexOf(a + t, pat) == Shift(IndexOf(t, pat), |a|)
  {
    if a != [] {
      assert (a + t)[1..] == a[1..] + t;
      IndexOfSkip(a[1..], t, pat);
      assert (a + t)[0] != pat[0];
    } else {
      assert a + t == t;
    }
  }

  /** A pattern at the very front is found at position 0. */
  lemma IndexOfFront(pat: string, t: string)
    requires |pat| > 0
    ensures IndexOf(pat + t, pat) == Some(0)
  {
    assert (pat + t)[..|pat|] == pat;
  }

  // ---------------------------------------------------------------------------
  // ASCII case folding
  // ---------------------------------------------------------------------------

  function LowerChar(c: char): char
  {
    if 'A' <= c <= 'Z' then (c as int + 32) as char else c
  }

  function UpperChar(c: char): char
  {
    if 'a' <= c <= 'z' then (c as int - 32) as char else c
  }

  /** `std::transform(s.begin(), s.end(), s.begin(), ::tolower)` in the C locale. */
  function ToLower(s: string): (r: string)
    ensures |r| == |s|
    ensures forall i :: 0 <= i < |s| ==> r[i] == LowerChar(s[i])
  {
    if s == [] then [] else [LowerChar(s[0])] + ToLower(s[1..])
  }

  function ToUpper(s: string): (r: string)
    ensures |r| == |s|
    ensures forall i :: 0 <= i < |s| ==> r[i] == UpperChar(s[i])
  {
    if s == [] then [] else [UpperChar(s[0])] + ToUpper(s[1..])
  }

  /** Lower-casing an upper-cased string gives the lower-cased original. */
  lemma LowerOfUpper(s: string)
    ensures ToLower(ToUpper(s)) == ToLower(s)
  {
    assert forall i :: 0 <= i < |s| ==> LowerChar(UpperChar(s[i])) == LowerChar(s[i]);
  }

  // ---------------------------------------------------------------------------
  // CRLF-terminated header blocks
  // ---------------------------------------------------------------------------

  /** Each line followed by CRLF. */
  function HeadBlock(lines: seq<string>): string
  {
    if lines == [] then "" else lines[0] + CRLF + HeadBlock(lines[1..])
  }

  /** A line that can stand in a header block: non-empty, no carriage return. */
  predicate PlainLine(line: string)
  {
    |line| > 0 && forall k :: 0 <= k < |line| ==> line[k] != '\r'
  }

  predicate PlainLines(lines: seq<string>)
  {
    forall i :: 0 <= i < |lines| ==> PlainLine(lines[i])
  }

  /** A line break not followed by a carriage return does not start a blank line. */
  lemma CrLfThenText(u: string)
    requires |u| >= 2 && u[0] != '\r'
    ensures IndexOf(CRLF + u, CRLFCRLF) == Shift(IndexOf(u, CRLFCRLF), 2)
  {
    var v := CRLF + u;
    assert v[1] == '\n' && v[2] == u[0];
    assert v[2..] == u;
    SecondIsNotBlank(v);
  }

  /** The search moves on past a second character that cannot start CRLFCRLF. */
  lemma SecondIsNotBlank(v: string)
    requires |v| >= 4 && v[1] != '\r' && v[2] != '\r'
    ensures IndexOf(v, CRLFCRLF) == Shift(IndexOf(v[2..], CRLFCRLF), 2)
  {
    var w := IndexOf(v[2..], CRLFCRLF);
    assert v[..4] != CRLFCRLF by {
      assert v[..4][2] == v[2];
    }
    SkipNonStart(v[1..]);
    assert v[1..][1..] == v[2..];
    assert Shift(Shift(w, 1), 1) == Shift(w, 2);
  }

  /** A first character other than CR is skipped by the search for CRLFCRLF. */
  lemma SkipNonStart(t: string)
    requires |t| > 0 && t[0] != '\r'
    ensures IndexOf(t, CRLFCRLF) == Shift(IndexOf(t[1..], CRLFCRLF), 1)
  {
    if |t| >= 4 {
      assert t[..4][0] == t[0];
    }
  }

  /** One more plain line in front of a block whose blank line is already located. */
  lemma LineBeforeBlock(l: string, h: string, rest: string)
    requires forall k :: 0 <= k < |l| ==> l[k] != '\r'
    requires |h| >= 2 && h[0] != '\r'
    requires IndexOf(h + CRLF + rest, CRLFCRLF) == Some(|h| - 2)
    ensures IndexOf(l + CRLF + h + CRLF + rest, CRLFCRLF) == Some(|l| + |h|)
  {
    var pat := CRLFCRLF;
    var u := h + CRLF + rest;
    assert IndexOf(CRLF + u, pat) == Some(|h|) by {
      assert u[0] == h[0];
      CrLfThenText(u);
    }
    assert IndexOf(l + (CRLF + u), pat) == Some(|l| + |h|) by {
      IndexOfSkip(l, CRLF + u, pat);
    }
    assert l + CRLF + h + CRLF + rest == l + (CRLF + u);
  }

  /**
   * In a non-empty block of plain lines followed by an empty line, the first
   * CRLFCRLF is the one that ends the block: what follows it is exactly `rest`.
   */
  lemma {:induction false} BlankLineEndsBlock(lines: seq<string>, rest: string)
    requires |lines| > 0 && PlainLines(lines)
    ensures |HeadBlock(lines)| >= 2
    ensures IndexOf(HeadBlock(lines) + CRLF + rest, CRLFCRLF) == Some(|HeadBlock(lines)| - 2)
  {
    var l := lines[0];
    var tail := lines[1..];
    var pat := CRLFCRLF;
    assert HeadBlock(lines) == l + CRLF + HeadBlock(tail);
    if tail == [] {
      assert IndexOf(CRLFCRLF + rest, pat) == Some(0) by {
        IndexOfFront(pat, rest);
      }
      assert IndexOf(l + (CRLFCRLF + rest), pat) == Some(|l|) by {
        IndexOfSkip(l, CRLFCRLF + rest, pat);
      }
      assert HeadBlock(lines) + CRLF + rest == l + (CRLFCRLF + rest);
    } else {
      assert PlainLines(tail) by {
        assert forall i :: 0 <= i < |tail| ==> tail[i] == lines[i + 1];
      }
      BlankLineEndsBlock(tail, rest);
      var h := HeadBlock(tail);
      assert h[0] == tail[0][0] by {
        assert h == tail[0] + CRLF + HeadBlock(tail[1..]);
      }
      LineBeforeBlock(l, h, rest);
      assert HeadBlock(lines) + CRLF + rest == l + CRLF + h + CRLF + rest;
    }
  }

  /** A CR-free line followed by CRLF: the first CRLF is the one that ends it. */
  lemma LineEnd(line: string, rest: string)
    requires forall k :: 0 <= k < |line| ==> line[k] != '\r'
    ensures IndexOf(line + CRLF + rest, CRLF) == Some(|line|)
  {
    assert line + CRLF + rest == line + (CRLF + rest);
    IndexOfFront(CRLF, rest);
    IndexOfSkip(line, CRLF + rest, CRLF);
  }
}
