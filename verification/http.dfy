/**
 * The HTTP framing the plugin speaks: the request-line, path/query and body
 * split done by the server loop of `src/MCPx64dbg.cpp`, and the response text
 * `SendResponse` in `include/mcp_common.h` writes to the socket.
 */
module Http {
  import opened Wrappers
  import opened Numerals
  import opened Text

  // ---------------------------------------------------------------------------
  // Requests
  // ---------------------------------------------------------------------------

  /** What the server loop extracts from the bytes of one request. */
  datatype RawRequest = RawRequest(httpMethod: string, path: string, query: string, body: string)

  /** The first line holds at least two spaces. */
  predicate HasTwoSpaces(line: string)
  {
    exists i, j :: 0 <= i < j < |line| && line[i] == ' ' && line[j] == ' '
  }

  function SplitTarget(url: string): (r: (string, string))
    ensures FindChar(url, '?').None? ==> r == (url, "")
    ensures FindChar(url, '?').Some? ==> url == r.0 + "?" + r.1
    ensures forall i :: 0 <= i < |r.0| ==> r.0[i] != '?'
  {
    match FindChar(url, '?')
    case None => (url, "")
    case Some(k) =>
      assert url == url[..k] + "?" + url[k + 1..];
      (url[..k], url[k + 1..])
  }

  /**
   * The request line runs up to the first CRLF; the method up to its first
   * space, the target up to the next space; the target splits at its first
   * `?` into path and query; the body is everything after the first CRLFCRLF
   * of the whole request, or empty.  `None` when the request has no CRLF or
   * its first line has fewer than two spaces: the server then answers nothing.
   */
  function ParseRequest(request: string): (r: Option<RawRequest>)
    ensures r.Some? <==> IndexOf(request, CRLF).Some? && HasTwoSpaces(request[..IndexOf(request, CRLF).value])
  {
    match IndexOf(request, CRLF)
    case None => None
    case Some(lineEnd) =>
      var line := request[..lineEnd];
      TwoSpacesFound(line);
      match FindChar(line, ' ')
      case None => None
      case Some(m) =>
        match FindChar(line[m + 1..], ' ')
        case None => None
        case Some(u0) =>
          var (path, query) := SplitTarget(line[m + 1..][..u0]);
          var body := match IndexOf(request, CRLFCRLF)
            case None => ""
            case Some(b) => request[b + 4..];
          Some(RawRequest(line[..m], path, query, body))
  }

  /** The server loop's two `find(' ')` calls both succeed exactly when the line holds two spaces. */
  lemma TwoSpacesFound(line: string)
    ensures HasTwoSpaces(line) <==>
      FindChar(line, ' ').Some? && FindChar(line[FindChar(line, ' ').value + 1..], ' ').Some?
  {
    match FindChar(line, ' ')
    case None =>
    case Some(m) =>
      match FindChar(line[m + 1..], ' ')
      case None =>
        assert !HasTwoSpaces(line) by {
          forall i, j | 0 <= i < j < |line| && line[i] == ' '
            ensures line[j] != ' '
          {
            assert line[m + 1..][j - m - 1] == line[j];
          }
        }
      case Some(u0) =>
        assert line[m] == ' ' && line[m + 1 + u0] == ' ';
  }

  /**
   * Of an answered request, the method holds no space, the path neither a
   * space nor a `?`, and without a blank line the body is empty.
   */
  lemma ParseRequestFields(request: string)
    requires ParseRequest(request).Some?
    ensures var r := ParseRequest(request).value;
      && (forall i :: 0 <= i < |r.httpMethod| ==> r.httpMethod[i] != ' ')
      && (forall i :: 0 <= i < |r.path| ==> r.path[i] != ' ' && r.path[i] != '?')
      && (IndexOf(request, CRLFCRLF).None? ==> r.body == "")
  {
    var lineEnd := IndexOf(request, CRLF).value;
    var line := request[..lineEnd];
    var m := FindChar(line, ' ').value;
    var u0 := FindChar(line[m + 1..], ' ').value;
    var url := line[m + 1..][..u0];
    BeforeFirstSpace(line, m);
    BeforeFirstSpace(line[m + 1..], u0);
    TargetPathPlain(url);
    assert ParseRequest(request).value.httpMethod == line[..m];
    assert ParseRequest(request).value.path == SplitTarget(url).0;
  }

  /** The text before the first space holds no space. */
  lemma BeforeFirstSpace(s: string, k: nat)
    requires FindChar(s, ' ') == Some(k)
    ensures forall i :: 0 <= i < |s[..k]| ==> s[..k][i] != ' '
  {
  }

  /** The path part of a target free of spaces holds neither a space nor a `?`. */
  lemma TargetPathPlain(url: string)
    requires forall i :: 0 <= i < |url| ==> url[i] != ' '
    ensures var p := SplitTarget(url).0; forall i :: 0 <= i < |p| ==> p[i] != ' ' && p[i] != '?'
  {
    var p := SplitTarget(url).0;
    assert p == url[..|p|];
  }

  /** Text a request line component may hold: no space, no carriage return. */
  predicate Token(s: string)
  {
    forall i :: 0 <= i < |s| ==> s[i] != ' ' && s[i] != '\r'
  }

  /** The request target: the path, and `?query` when there is a query. */
  function Target(path: string, query: string): string
  {
    if query == [] then path else path + "?" + query
  }

  /** A request as a client sends it: request line, header lines, blank line, body. */
  function FormatRequest(httpMethod: string, path: string, query: string, version: string, headers: seq<string>, body: string): string
  {
    HeadBlock([httpMethod + " " + Target(path, query) + " " + version] + headers) + CRLF + body
  }

  /** Where a target's `?` falls: right after the path. */
  lemma SplitFormattedTarget(path: string, query: string)
    requires forall i :: 0 <= i < |path| ==> path[i] != '?'
    ensures SplitTarget(Target(path, query)) == (path, query)
  {
    if query == [] {
      assert FindChar(path, '?').None?;
    } else {
      FindCharAfter(path, '?', query);
      var t := path + "?" + query;
      assert t == path + ['?'] + query;
      assert t[..|path|] == path && t[|path| + 1..] == query;
    }
  }

  /** The request line is split at its two spaces. */
  lemma SplitRequestLine(httpMethod: string, target: string, version: string)
    requires Token(httpMethod) && Token(target)
    ensures var line := httpMethod + " " + target + " " + version;
      && FindChar(line, ' ') == Some(|httpMethod|)
      && FindChar(line[|httpMethod| + 1..], ' ') == Some(|target|)
      && line[..|httpMethod|] == httpMethod
      && line[|httpMethod| + 1..][..|target|] == target
  {
    var line := httpMethod + " " + target + " " + version;
    var tail := target + " " + version;
    assert line == httpMethod + [' '] + tail;
    FindCharAfter(httpMethod, ' ', tail);
    assert line[|httpMethod| + 1..] == target + [' '] + version;
    FindCharAfter(target, ' ', version);
  }

  /** The request line of a well-formed request holds no carriage return. */
  lemma RequestLinePlain(httpMethod: string, target: string, version: string)
    requires Token(httpMethod) && Token(target)
    requires forall i :: 0 <= i < |version| ==> version[i] != '\r'
    ensures var line := httpMethod + " " + target + " " + version;
      |line| > 0 && forall k :: 0 <= k < |line| ==> line[k] != '\r'
  {
    var line := httpMethod + " " + target + " " + version;
    assert forall k :: 0 <= k < |line| ==> line[k] == (if k < |httpMethod| then httpMethod[k] else if k == |httpMethod| then ' ' else if k <= |httpMethod| + |target| then target[k - |httpMethod| - 1] else if k == |httpMethod| + |target| + 1 then ' ' else version[k - |httpMethod| - |target| - 2]);
  }

  /** A path free of `?` and spaces and a query free of spaces make a target free of spaces. */
  lemma TargetIsToken(path: string, query: string)
    requires Token(path) && Token(query)
    ensures Token(Target(path, query))
  {
    var target := Target(path, query);
    if query != [] {
      assert forall i :: 0 <= i < |target| ==> target[i] == (if i < |path| then path[i] else if i == |path| then '?' else query[i - |path| - 1]);
    }
  }

  /** The request line of a formatted request is found, and the body after its blank line. */
  lemma FormattedRequestFraming(line: string, headers: seq<string>, body: string)
    requires |line| > 0 && forall k :: 0 <= k < |line| ==> line[k] != '\r'
    requires PlainLines(headers)
    ensures var request := HeadBlock([line] + headers) + CRLF + body;
      && IndexOf(request, CRLF) == Some(|line|)
      && request[..|line|] == line
      && IndexOf(request, CRLFCRLF).Some?
      && request[IndexOf(request, CRLFCRLF).value + 4..] == body
  {
    var lines := [line] + headers;
    var request := HeadBlock(lines) + CRLF + body;
    assert PlainLines(lines) by {
      assert forall i :: 1 <= i < |lines| ==> lines[i] == headers[i - 1];
    }
    var rest := HeadBlock(headers) + CRLF + body;
    assert request == line + CRLF + rest by {
      assert lines[1..] == headers;
      assert HeadBlock(lines) == line + CRLF + HeadBlock(headers);
    }
    LineEnd(line, rest);
    BlankLineEndsBlock(lines, body);
  }

  /**
   * A well-formed request parses back into its method, path, query and body,
   * whatever the header lines say and whatever the body holds.
   */
  lemma ParseFormatRequest(httpMethod: string, path: string, query: string, version: string, headers: seq<string>, body: string)
    requires Token(httpMethod) && Token(path) && Token(query)
    requires forall i :: 0 <= i < |path| ==> path[i] != '?'
    requires forall i :: 0 <= i < |version| ==> version[i] != '\r'
    requires PlainLines(headers)
    ensures ParseRequest(FormatRequest(httpMethod, path, query, version, headers, body)) == Some(RawRequest(httpMethod, path, query, body))
  {
    var target := Target(path, query);
    TargetIsToken(path, query);
    RequestLinePlain(httpMethod, target, version);
    var line := httpMethod + " " + target + " " + version;
    FormattedRequestFraming(line, headers, body);
    SplitRequestLine(httpMethod, target, version);
    SplitFormattedTarget(path, query);
  }

  // ---------------------------------------------------------------------------
  // Responses
  // ---------------------------------------------------------------------------

  /** The two content types the handlers send. */
  datatype ContentType = ApplicationJson | TextPlain

  function ContentTypeName(t: ContentType): string
  {
    match t
    case ApplicationJson => "application/json"
    case TextPlain => "text/plain"
  }

  /** One `SendResponse` call. */
  datatype Response = Response(status: nat, contentType: ContentType, body: string)

  /** Reason phrase of the status line: three known codes, every other code reads as a server error. */
  function ReasonPhrase(code: nat): (r: string)
    ensures r == "OK" <==> code == 200
    ensures r == "Bad Request" <==> code == 400
    ensures r == "Not Found" <==> code == 404
    ensures r == "Internal Server Error" <==> code !in {200, 400, 404}
  {
    if code == 200 then "OK"
    else if code == 400 then "Bad Request"
    else if code == 404 then "Not Found"
    else "Internal Server Error"
  }

  /** The status line and the four header lines `SendResponse` writes. */
  function ResponseHead(r: Response): seq<string>
  {
    [ "HTTP/1.1 " + Decimal(r.status) + " " + ReasonPhrase(r.status),
      "Content-Type: " + ContentTypeName(r.contentType),
      "Content-Length: " + Decimal(|r.body|),
      "Access-Control-Allow-Origin: *",
      "Connection: close" ]
  }

  /** The bytes `SendResponse` sends: header block, blank line, body. */
  function Serialize(r: Response): (s: string)
    ensures IndexOf(s, CRLFCRLF).Some? && s[IndexOf(s, CRLFCRLF).value + 4..] == r.body
  {
    ResponseHeadPlain(r);
    BlankLineEndsBlock(ResponseHead(r), r.body);
    HeadBlock(ResponseHead(r)) + CRLF + r.body
  }

  /** A line of one literal followed by one digit string holds no carriage return. */
  lemma LabelledNumberPlain(prefix: string, digits: string, tail: string)
    requires forall k :: 0 <= k < |prefix| ==> prefix[k] != '\r'
    requires forall k :: 0 <= k < |tail| ==> tail[k] != '\r'
    requires AllDigits(Dec, digits)
    ensures forall k :: 0 <= k < |prefix + digits + tail| ==> (prefix + digits + tail)[k] != '\r'
  {
    var line := prefix + digits + tail;
    assert forall k :: 0 <= k < |line| ==> line[k] == (if k < |prefix| then prefix[k] else if k < |prefix| + |digits| then digits[k - |prefix|] else tail[k - |prefix| - |digits|]);
  }

  lemma StatusLinePlain(code: nat)
    ensures PlainLine("HTTP/1.1 " + Decimal(code) + " " + ReasonPhrase(code))
  {
    var reason := ReasonPhrase(code);
    assert forall k :: 0 <= k < |reason| ==> reason[k] != '\r';
    LabelledNumberPlain("HTTP/1.1 ", Decimal(code), " " + reason);
    assert "HTTP/1.1 " + Decimal(code) + " " + reason == "HTTP/1.1 " + Decimal(code) + (" " + reason);
  }

  lemma ContentTypeLinePlain(t: ContentType)
    ensures PlainLine("Content-Type: " + ContentTypeName(t))
  {
    var ct := ContentTypeName(t);
    assert forall k :: 0 <= k < |ct| ==> ct[k] != '\r';
    LabelledNumberPlain("Content-Type: ", "", ct);
    assert "Content-Type: " + "" + ct == "Content-Type: " + ct;
  }

  lemma ContentLengthLinePlain(n: nat)
    ensures PlainLine("Content-Length: " + Decimal(n))
  {
    LabelledNumberPlain("Content-Length: ", Decimal(n), "");
    assert "Content-Length: " + Decimal(n) + "" == "Content-Length: " + Decimal(n);
  }

  /** The response head consists of non-empty lines without carriage returns. */
  lemma ResponseHeadPlain(r: Response)
    ensures PlainLines(ResponseHead(r))
  {
    StatusLinePlain(r.status);
    ContentTypeLinePlain(r.contentType);
    ContentLengthLinePlain(|r.body|);
    assert PlainLine("Access-Control-Allow-Origin: *");
    assert PlainLine("Connection: close");
  }

  /**
   * A client that reads up to the first blank line gets exactly the header
   * block, finds the body right after it, and reads a Content-Length that
   * parses to the body's length.
   */
  lemma SerializeFraming(r: Response)
    ensures var s := Serialize(r);
      && IndexOf(s, CRLFCRLF).Some?
      && s[IndexOf(s, CRLFCRLF).value + 4..] == r.body
      && ResponseHead(r)[2] == "Content-Length: " + Decimal(|r.body|)
      && (|r.body| < U64_LIMIT ==> Stoull(Decimal(|r.body|)) == Success(|r.body|))
  {
    if |r.body| < U64_LIMIT {
      StoullDecimal(|r.body|);
    }
  }
}
