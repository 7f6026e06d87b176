/**
 * `HandleRequest` and the server loop of `src/MCPx64dbg.cpp`: the path picks
 * one endpoint by exact comparison, the endpoint answers once, an escaping
 * standard exception becomes a 500 JSON error, and an unknown path a 404.
 * The request method and body are carried along but never consulted.
 */
module Router {
  import opened Wrappers
  import opened Numerals
  import opened Codec
  import opened Text
  import opened Query
  import opened Params
  import opened Http
  import opened Engine
  import opened Inline
  import opened Pattern
  import opened Annotation
  import opened Stack
  import opened Functions
  import opened Misc
  import opened Assembler
  import opened Flags

  const NotFound := "Endpoint not found"

  /**
   * The response discipline every endpoint keeps: 200 is always JSON, 400 is
   * always plain text and made no engine call, and nothing else but 500 is
   * sent.
   */
  predicate Disciplined(s: Step)
  {
    && (s.response.status == 200 || s.response.status == 400 || s.response.status == 500)
    && (s.response.status == 200 ==> s.response.contentType == ApplicationJson)
    && (s.response.status == 400 ==> s.response.contentType == TextPlain && s.calls == [])
  }

  /** What an endpoint that threw nothing did. */
  function Done(s: Step): Option<Result<Step, StdException>>
  {
    Some(Success(s))
  }

  /** The status, command, register and memory endpoints answered inline. */
  const ControlPaths: set<string> := {"/status", "/cmd", "/register/get", "/register/set", "/memory/read", "/memory/write"}

  function RouteControl(path: string, params: ParamMap, eng: Engine): (r: Option<Result<Step, StdException>>)
    ensures r.None? <==> path !in ControlPaths
    ensures r.Some? && r.value.Success? ==> Disciplined(r.value.value)
  {
    if path == "/status" then Done(HandleStatus(eng))
    else if path == "/cmd" then Done(HandleCmd(params, eng))
    else if path == "/register/get" then Done(HandleRegisterGet(params, eng))
    else if path == "/register/set" then Some(HandleRegisterSet(params, eng))
    else if path == "/memory/read" then Some(HandleMemoryRead(params, eng))
    else if path == "/memory/write" then Some(HandleMemoryWrite(params, eng))
    else None
  }

  /** The pattern and memory search endpoints. */
  const SearchPaths: set<string> := {"/pattern/find_mem", "/pattern/search_replace_mem", "/memory/search"}

  function RouteSearch(path: string, params: ParamMap, eng: Engine): (r: Option<Result<Step, StdException>>)
    ensures r.None? <==> path !in SearchPaths
    ensures r.Some? && r.value.Success? ==> Disciplined(r.value.value)
  {
    if path == "/pattern/find_mem" then Done(HandleFindMem(params, eng))
    else if path == "/pattern/search_replace_mem" then Done(HandleSearchReplaceMem(params, eng))
    else if path == "/memory/search" then Done(HandleMemorySearch(params, eng))
    else None
  }

  /** Debug control, breakpoints, disassembly and the module list. */
  const DebugPaths: set<string> := {"/debug/run", "/debug/pause", "/debug/step", "/debug/stepover", "/debug/stepout", "/breakpoint/set", "/breakpoint/delete", "/disasm", "/modules"}

  function RouteDebug(path: string, params: ParamMap, eng: Engine): (r: Option<Result<Step, StdException>>)
    ensures r.None? <==> path !in DebugPaths
    ensures r.Some? && r.value.Success? ==> Disciplined(r.value.value)
  {
    if path == "/debug/run" then Done(HandleDebug(Run))
    else if path == "/debug/pause" then Done(HandleDebug(Pause))
    else if path == "/debug/step" then Done(HandleDebug(StepIn))
    else if path == "/debug/stepover" then Done(HandleDebug(StepOver))
    else if path == "/debug/stepout" then Done(HandleDebug(StepOut))
    else if path == "/breakpoint/set" then Some(HandleBreakpointSet(params, eng))
    else if path == "/breakpoint/delete" then Some(HandleBreakpointDelete(params, eng))
    else if path == "/disasm" then Some(HandleDisasm(params, eng))
    else if path == "/modules" then Done(HandleModules(eng))
    else None
  }

  /** Symbols, labels and comments. */
  const AnnotationsPaths: set<string> := {"/symbols/list", "/label/set", "/label/get", "/label/delete", "/label/from_string", "/label/list", "/comment/set", "/comment/get", "/comment/delete", "/comment/list"}

  function RouteAnnotations(path: string, params: ParamMap, eng: Engine): (r: Option<Result<Step, StdException>>)
    ensures r.None? <==> path !in AnnotationsPaths
    ensures r.Some? && r.value.Success? ==> Disciplined(r.value.value)
  {
    if path == "/symbols/list" then Done(HandleSymbolsList(params, eng))
    else if path == "/label/set" then Done(HandleLabelSet(params, eng))
    else if path == "/label/get" then Done(HandleLabelGet(params, eng))
    else if path == "/label/delete" then Done(HandleLabelDelete(params, eng))
    else if path == "/label/from_string" then Done(HandleLabelFromString(params, eng))
    else if path == "/label/list" then Done(HandleLabelList(params, eng))
    else if path == "/comment/set" then Done(HandleCommentSet(params, eng))
    else if path == "/comment/get" then Done(HandleCommentGet(params, eng))
    else if path == "/comment/delete" then Done(HandleCommentDelete(params, eng))
    else if path == "/comment/list" then Done(HandleCommentList(params, eng))
    else None
  }

  /** The stack, function and bookmark endpoints. */
  const AnalysisPaths: set<string> := {"/stack/push", "/stack/pop", "/stack/peek", "/function/add", "/function/get", "/function/delete", "/function/list", "/bookmark/set", "/bookmark/get", "/bookmark/delete", "/bookmark/list"}

  function RouteAnalysis(path: string, params: ParamMap, eng: Engine): (r: Option<Result<Step, StdException>>)
    ensures r.None? <==> path !in AnalysisPaths
    ensures r.Some? && r.value.Success? ==> Disciplined(r.value.value)
  {
    if path == "/stack/push" then Done(HandleStackPush(params, eng))
    else if path == "/stack/pop" then Done(HandleStackPop(params, eng))
    else if path == "/stack/peek" then Done(HandleStackPeek(params, eng))
    else if path == "/function/add" then Done(HandleFunctionAdd(params, eng))
    else if path == "/function/get" then Done(HandleFunctionGet(params, eng))
    else if path == "/function/delete" then Done(HandleFunctionDelete(params, eng))
    else if path == "/function/list" then Done(HandleFunctionList(params, eng))
    else if path == "/bookmark/set" then Done(HandleBookmarkSet(params, eng))
    else if path == "/bookmark/get" then Done(HandleBookmarkGet(params, eng))
    else if path == "/bookmark/delete" then Done(HandleBookmarkDelete(params, eng))
    else if path == "/bookmark/list" then Done(HandleBookmarkList(params, eng))
    else None
  }

  /** Expression evaluation, the assembler and the CPU flags. */
  const UtilitiesPaths: set<string> := {"/misc/parse_expression", "/misc/resolve_label", "/misc/get_proc_address", "/assembler/assemble", "/assembler/assemble_mem", "/flag/get", "/flag/set", "/flags/get_all"}

  function RouteUtilities(path: string, params: ParamMap, eng: Engine): (r: Option<Result<Step, StdException>>)
    ensures r.None? <==> path !in UtilitiesPaths
    ensures r.Some? && r.value.Success? ==> Disciplined(r.value.value)
  {
    if path == "/misc/parse_expression" then Done(HandleParseExpression(params, eng))
    else if path == "/misc/resolve_label" then Done(HandleResolveLabel(params, eng))
    else if path == "/misc/get_proc_address" then Done(HandleGetProcAddress(params, eng))
    else if path == "/assembler/assemble" then Done(HandleAssemble(params, eng))
    else if path == "/assembler/assemble_mem" then Done(HandleAssembleMem(params, eng))
    else if path == "/flag/get" then Done(HandleFlagGet(params, eng))
    else if path == "/flag/set" then Done(HandleFlagSet(params, eng))
    else if path == "/flags/get_all" then Done(HandleFlagsGetAll(params, eng))
    else None
  }

  /** Every path the router answers. */
  const Endpoints: set<string> :=
    ControlPaths + SearchPaths + DebugPaths + AnnotationsPaths + AnalysisPaths + UtilitiesPaths

  /**
   * The endpoint chain, in the order the paths are compared: `None` for an
   * unknown path; otherwise what that endpoint did, or the exception that
   * escaped it.  The groups are disjoint, so the order never matters.
   */
  function Route(path: string, params: ParamMap, eng: Engine): (r: Option<Result<Step, StdException>>)
    ensures r.None? <==> path !in Endpoints
    ensures r.Some? && r.value.Success? ==> Disciplined(r.value.value)
  {
    match RouteControl(path, params, eng)
    case Some(x) => Some(x)
    case None =>
      match RouteSearch(path, params, eng)
      case Some(x) => Some(x)
      case None =>
        match RouteDebug(path, params, eng)
        case Some(x) => Some(x)
        case None =>
          match RouteAnnotations(path, params, eng)
          case Some(x) => Some(x)
          case None =>
            match RouteAnalysis(path, params, eng)
            case Some(x) => Some(x)
            case None => RouteUtilities(path, params, eng)
  }

  /**
   * The catch block: `{"error":"<what()>"}` with the message escaped, as a
   * 500 JSON response.
   */
  function ErrorResponse(e: StdException): (r: Response)
    ensures r.status == 500 && r.contentType == ApplicationJson
    ensures r.body == Render(JObj([Member("error", JStr(What(e)))]))
  {
    ErrorBodyRenders(What(e));
    Response(500, ApplicationJson, "{\"error\":\"" + JsonEscape(What(e)) + "\"}")
  }

  /** The catch block's string building prints the one-member object `{"error": m}`. */
  lemma ErrorBodyRenders(m: string)
    ensures "{\"error\":\"" + JsonEscape(m) + "\"}" == Render(JObj([Member("error", JStr(m))]))
  {
    ErrorObjectText(m);
    ErrorQuoting(JsonEscape(m));
  }

  /** The object `{"error": m}` as `Render` lays it out. */
  lemma ErrorObjectText(m: string)
    ensures Render(JObj([Member("error", JStr(m))])) == "{" + ("\"error\":" + ("\"" + JsonEscape(m) + "\"")) + "}"
  {
    var member := Member("error", JStr(m));
    var quoted := "\"" + JsonEscape(m) + "\"";
    assert Render(JStr(m)) == quoted;
    assert RenderMember(member) == "\"error\":" + quoted;
    assert RenderMembers([member]) == RenderMember(member);
  }

  lemma ErrorQuoting(esc: string)
    ensures "{" + ("\"error\":" + ("\"" + esc + "\"")) + "}" == "{\"error\":\"" + esc + "\"}"
  {
  }

  /** The error body carries the exception message intact: unescaping the string gives it back. */
  lemma ErrorMessageReadsBack(e: StdException)
    ensures var body := ErrorResponse(e).body;
      && |body| >= 11
      && body[..9] == "{\"error\":"
      && body[|body| - 1] == '}'
      && Unescape(body[10..|body| - 2]) == Some(What(e))
  {
    var esc := JsonEscape(What(e));
    UnescapeJsonEscape(What(e));
    ErrorFraming(esc);
  }

  /** Where the escaped message sits inside the error object's text. */
  lemma ErrorFraming(esc: string)
    ensures var body := "{\"error\":\"" + esc + "\"}";
      && |body| == |esc| + 12
      && body[..9] == "{\"error\":"
      && body[|body| - 1] == '}'
      && body[10..|body| - 2] == esc
  {
    var pre := "{\"error\":\"";
    var body := pre + esc + "\"}";
    assert body[..9] == pre[..9];
    assert body[10..|body| - 2] == esc;
  }

  /**
   * `HandleRequest`: an unknown path is a 404 plain-text "Endpoint not
   * found" with no engine call; a known path answers as its endpoint did,
   * or, when a standard exception escaped it, with the 500 JSON error and no
   * engine call.  Either way one response keeps the discipline of every
   * endpoint.  The method and the body do not influence the answer.
   */
  function HandleRequest(httpMethod: string, path: string, params: ParamMap, body: string, eng: Engine): (s: Step)
    ensures s.response.status == 404 <==> path !in Endpoints
    ensures path !in Endpoints ==> s == Step(PlainText(404, NotFound), [])
    ensures path in Endpoints ==> Disciplined(s)
    ensures var r := Route(path, params, eng);
      && (r.Some? && r.value.Success? ==> s == r.value.value)
      && (r.Some? && r.value.Failure? ==> s == Step(ErrorResponse(r.value.error), []))
  {
    Answer(Route(path, params, eng))
  }

  /** The answer to a routing outcome: the 404, the 500 for an escaped exception, or the endpoint's own step. */
  function Answer(r: Option<Result<Step, StdException>>): (s: Step)
    requires r.Some? && r.value.Success? ==> Disciplined(r.value.value)
    ensures s.response.status == 404 <==> r.None?
    ensures r.None? ==> s == Step(PlainText(404, NotFound), [])
    ensures r.Some? ==> Disciplined(s)
    ensures r.Some? && r.value.Success? ==> s == r.value.value
    ensures r.Some? && r.value.Failure? ==> s == Step(ErrorResponse(r.value.error), [])
  {
    match r
    case None => Step(PlainText(404, NotFound), [])
    case Some(Failure(e)) => Step(ErrorResponse(e), [])
    case Some(Success(step)) => step
  }

  /** `/breakpoint/set` reaches its inline handler. */
  lemma BreakpointSetRoute(params: ParamMap, eng: Engine)
    ensures Route("/breakpoint/set", params, eng) == Some(HandleBreakpointSet(params, eng))
  {
    BreakpointSetIsDebug();
    assert RouteDebug("/breakpoint/set", params, eng) == Some(HandleBreakpointSet(params, eng));
  }

  lemma BreakpointSetIsDebug()
    ensures "/breakpoint/set" !in ControlPaths && "/breakpoint/set" !in SearchPaths
  {
  }

  /** `/label/get` reaches its header handler. */
  lemma LabelGetRoute(params: ParamMap, eng: Engine)
    ensures Route("/label/get", params, eng) == Done(HandleLabelGet(params, eng))
  {
    LabelGetIsAnnotation();
    assert RouteAnnotations("/label/get", params, eng) == Done(HandleLabelGet(params, eng));
  }

  lemma LabelGetIsAnnotation()
    ensures "/label/get" !in ControlPaths && "/label/get" !in SearchPaths && "/label/get" !in DebugPaths
  {
  }

  /**
   * A malformed number at an inline endpoint: the bare `std::stoull` throws,
   * and the router answers with the 500 JSON error and no engine call.
   */
  lemma MalformedAddressThrows(httpMethod: string, a: string, body: string, eng: Engine)
    requires |a| == 0 || !IsDigitOf(Dec, a[0]) || BareHexPrefix(a)
    ensures HandleRequest(httpMethod, "/breakpoint/set", map["addr" := a], body, eng)
      == Step(ErrorResponse(InvalidArgument("stoull")), [])
  {
    var params := map["addr" := a];
    var path := "/breakpoint/set";
    var e := InvalidArgument("stoull");
    assert Route(path, params, eng) == Some(Failure(e)) by {
      assert HandleBreakpointSet(params, eng) == Failure(e);
      BreakpointSetRoute(params, eng);
    }

  }

  /**
   * The same malformed number at a header endpoint: `GetParamAddr` swallows
   * the exception and the handler answers 400 as if the parameter were
   * missing.
   */
  lemma MalformedAddressIsMissing(httpMethod: string, a: string, body: string, eng: Engine)
    requires |a| == 0 || !IsDigitOf(Dec, a[0]) || BareHexPrefix(a)
    ensures HandleRequest(httpMethod, "/label/get", map["addr" := a], body, eng) == Step(PlainText(400, MissingAddr), [])
  {
    var params := map["addr" := a];
    assert Route("/label/get", params, eng) == Done(BadRequest(MissingAddr)) by {
      AddrRejectsNonNumeric(params, "addr", 0);
      assert HandleLabelGet(params, eng) == BadRequest(MissingAddr);
      LabelGetRoute(params, eng);
    }
  }

  // ---------------------------------------------------------------------------
  // One connection
  // ---------------------------------------------------------------------------

  /**
   * One accepted connection: the bytes received are parsed; a request the
   * server loop cannot split is closed without an answer; otherwise the
   * query is decoded and exactly one response is written.
   */
  function ServeConnection(request: string, eng: Engine): (out: string)
    ensures ParseRequest(request).None? ==> out == ""
    ensures ParseRequest(request).Some? ==>
      var req := ParseRequest(request).value;
      out == Serialize(HandleRequest(req.httpMethod, req.path, ParseQuery(req.query), req.body, eng).response)
  {
    match ParseRequest(request)
    case None => ""
    case Some(req) => Serialize(HandleRequest(req.httpMethod, req.path, ParseQuery(req.query), req.body, eng).response)
  }

  /**
   * A client that sends a well-formed request with a percent-encoded query
   * gets back the serialized answer of the endpoint named by the path, with
   * each parameter at the value of its last occurrence; the answer's body
   * follows the first blank line.
   */
  lemma ServeFormattedRequest(httpMethod: string, path: string, ps: seq<(string, string)>, version: string,
                              headers: seq<string>, body: string, eng: Engine)
    requires Token(httpMethod) && Token(path)
    requires forall i :: 0 <= i < |path| ==> path[i] != '?'
    requires forall i :: 0 <= i < |version| ==> version[i] != '\r'
    requires PlainLines(headers) && PairsAreBytes(ps)
    ensures var request := FormatRequest(httpMethod, path, EncodeQuery(ps), version, headers, body);
      var answer := HandleRequest(httpMethod, path, StorePairs(map[], ps), body, eng).response;
      && ServeConnection(request, eng) == Serialize(answer)
      && var out := ServeConnection(request, eng);
        IndexOf(out, CRLFCRLF).Some? && out[IndexOf(out, CRLFCRLF).value + 4..] == answer.body
  {
    var query := EncodeQuery(ps);
    assert Token(query);
    ParseFormatRequest(httpMethod, path, query, version, headers, body);
    AddSegmentsStores(map[], Segments(query));
    QueryPairsEncode(ps);
    SerializeFraming(HandleRequest(httpMethod, path, StorePairs(map[], ps), body, eng).response);
  }
}
