/** The symbol, label and comment endpoints of `include/mcp_handlers_annotation.h`. */
module Annotation {
  import opened Wrappers
  import opened Numerals
  import opened Codec
  import opened Query
  import opened Params
  import opened Http
  import opened Engine

  const MissingAddrOrText := "Missing 'addr' or 'text' parameter"

  // ---------------------------------------------------------------------------
  // Symbols
  // ---------------------------------------------------------------------------

  /** The `type` of a symbol: three named kinds, `unknown` for anything else. */
  function SymbolTypeName(t: SymbolType): (name: string)
    ensures name == "unknown" <==> t.OtherSymbol?
    ensures t.FunctionSymbol? <==> name == "function"
    ensures t.ImportSymbol? <==> name == "import"
    ensures t.ExportSymbol? <==> name == "export"
  {
    match t
    case FunctionSymbol => "function"
    case ImportSymbol => "import"
    case ExportSymbol => "export"
    case OtherSymbol => "unknown"
  }

  function SymbolJson(x: SymbolInfo): Json
  {
    JObj([Member("module", JStr(x.modName)), HexField("rva", x.rva), Member("name", JStr(x.name)),
          Member("manual", JBool(x.manual)), Member("type", JVerbatim(SymbolTypeName(x.kind)))])
  }

  /**
   * `/symbols/list`: one list call; 500 plain text when it fails, else one
   * object per symbol.
   */
  function HandleSymbolsList(params: ParamMap, eng: Engine): (s: Step)
    ensures s.calls == [SymbolList]
    ensures s.response.status == 500 <==> eng.symbols.None?
    ensures eng.symbols.None? ==> s.response == PlainText(500, "Failed to get symbol list")
    ensures eng.symbols.Some? ==> s.response == JsonOk(JArr(ListItems(eng.symbols.value, SymbolJson)))
  {
    ListStep(eng.symbols, SymbolList, "Failed to get symbol list", SymbolJson)
  }

  // ---------------------------------------------------------------------------
  // Labels and comments
  // ---------------------------------------------------------------------------

  /** One label or comment of a list. */
  function AnnotationJson(x: AnnotationInfo): Json
  {
    JObj([Member("module", JStr(x.modName)), HexField("rva", x.rva), Member("text", JStr(x.text)), Member("manual", JBool(x.manual))])
  }

  /** `addr` parses and `text` is present. */
  predicate AnnotateArgsGiven(params: ParamMap)
  {
    AddrGiven(params, "addr") && "text" in params
  }

  /**
   * `/label/set`: 400 without the engine unless `addr` parses and `text` is
   * present; otherwise one non-temporary label write with `manual` (false by
   * default).
   */
  function HandleLabelSet(params: ParamMap, eng: Engine): (s: Step)
    ensures s.response.status == 400 <==> !AnnotateArgsGiven(params)
    ensures !AnnotateArgsGiven(params) ==> s == BadRequest(MissingAddrOrText)
    ensures AnnotateArgsGiven(params) ==>
      var call := LabelSet(AddrOf(params, "addr"), params["text"], ManualFlag(params));
      && s.calls == [call]
      && s.response == JsonOk(SuccessObj(eng.labelSet(call.addr, call.text, call.manual)))
  {
    var (hasAddr, addr) := GetParamAddr(params, "addr", 0);
    var (hasText, text) := GetParam(params, "text", "");
    if !hasAddr || !hasText then BadRequest(MissingAddrOrText)
    else
      var manual := ManualFlag(params);
      Step(JsonOk(SuccessObj(eng.labelSet(addr, text, manual))), [LabelSet(addr, text, manual)])
  }

  /** The body of a get: the engine's success flag and the text, escaped. */
  function TextResult(r: (bool, string)): Json
  {
    JObj([Member("success", JBool(r.0)), Member("text", JStr(r.1))])
  }

  /**
   * `/label/get`: 400 without the engine unless `addr` parses; otherwise one
   * read, reporting the engine's success flag and the label text escaped.
   */
  function HandleLabelGet(params: ParamMap, eng: Engine): (s: Step)
    ensures s.response.status == 400 <==> !AddrGiven(params, "addr")
    ensures !AddrGiven(params, "addr") ==> s == BadRequest(MissingAddr)
    ensures AddrGiven(params, "addr") ==>
      var addr := AddrOf(params, "addr");
      && s.calls == [LabelGet(addr)]
      && s.response == JsonOk(TextResult(eng.labelGet(addr)))
  {
    WithAddr(params, (a: duint) => (TextResult(eng.labelGet(a)), LabelGet(a)))
  }

  /** `/label/delete`: 400 without the engine unless `addr` parses; otherwise one delete. */
  function HandleLabelDelete(params: ParamMap, eng: Engine): (s: Step)
    ensures s.response.status == 400 <==> !AddrGiven(params, "addr")
    ensures !AddrGiven(params, "addr") ==> s == BadRequest(MissingAddr)
    ensures AddrGiven(params, "addr") ==>
      var addr := AddrOf(params, "addr");
      && s.calls == [LabelDelete(addr)]
      && s.response == JsonOk(SuccessObj(eng.labelDelete(addr)))
  {
    WithAddr(params, (a: duint) => (SuccessObj(eng.labelDelete(a)), LabelDelete(a)))
  }

  /**
   * `/label/from_string`: 400 without the engine when `label` is missing;
   * otherwise one lookup, reporting the success flag and the address
   * (0 unless the engine wrote one).
   */
  function HandleLabelFromString(params: ParamMap, eng: Engine): (s: Step)
    ensures s.response.status == 400 <==> "label" !in params
    ensures "label" !in params ==> s == BadRequest(MissingLabel)
    ensures "label" in params ==>
      var (ok, written) := eng.labelFromString(params["label"]);
      && s.calls == [LabelFromString(params["label"])]
      && s.response == JsonOk(JObj([Member("success", JBool(ok)), HexField("address", written.GetOr(0))]))
  {
    var (found, labelText) := GetParam(params, "label", "");
    if !found then BadRequest(MissingLabel)
    else
      var (success, written) := eng.labelFromString(labelText);
      var addr := match written case Some(a) => a case None => 0;
      Step(JsonOk(JObj([Member("success", JBool(success)), HexField("address", addr)])), [LabelFromString(labelText)])
  }

  /** `/label/list`: 500 plain text when the list call fails, else one object per label. */
  function HandleLabelList(params: ParamMap, eng: Engine): (s: Step)
    ensures s.calls == [LabelList]
    ensures s.response.status == 500 <==> eng.labels.None?
    ensures eng.labels.None? ==> s.response == PlainText(500, "Failed to get label list")
    ensures eng.labels.Some? ==> s.response == JsonOk(JArr(ListItems(eng.labels.value, AnnotationJson)))
  {
    ListStep(eng.labels, LabelList, "Failed to get label list", AnnotationJson)
  }

  /**
   * `/comment/set`: 400 without the engine unless `addr` parses and `text` is
   * present; otherwise one comment write with `manual` (false by default).
   */
  function HandleCommentSet(params: ParamMap, eng: Engine): (s: Step)
    ensures s.response.status == 400 <==> !AnnotateArgsGiven(params)
    ensures !AnnotateArgsGiven(params) ==> s == BadRequest(MissingAddrOrText)
    ensures AnnotateArgsGiven(params) ==>
      var call := CommentSet(AddrOf(params, "addr"), params["text"], ManualFlag(params));
      && s.calls == [call]
      && s.response == JsonOk(SuccessObj(eng.commentSet(call.addr, call.text, call.manual)))
  {
    var (hasAddr, addr) := GetParamAddr(params, "addr", 0);
    var (hasText, text) := GetParam(params, "text", "");
    if !hasAddr || !hasText then BadRequest(MissingAddrOrText)
    else
      var manual := ManualFlag(params);
      Step(JsonOk(SuccessObj(eng.commentSet(addr, text, manual))), [CommentSet(addr, text, manual)])
  }

  /** `/comment/get`: like `/label/get`, for comments. */
  function HandleCommentGet(params: ParamMap, eng: Engine): (s: Step)
    ensures s.response.status == 400 <==> !AddrGiven(params, "addr")
    ensures !AddrGiven(params, "addr") ==> s == BadRequest(MissingAddr)
    ensures AddrGiven(params, "addr") ==>
      var addr := AddrOf(params, "addr");
      && s.calls == [CommentGet(addr)]
      && s.response == JsonOk(TextResult(eng.commentGet(addr)))
  {
    WithAddr(params, (a: duint) => (TextResult(eng.commentGet(a)), CommentGet(a)))
  }

  /** `/comment/delete`: 400 without the engine unless `addr` parses; otherwise one delete. */
  function HandleCommentDelete(params: ParamMap, eng: Engine): (s: Step)
    ensures s.response.status == 400 <==> !AddrGiven(params, "addr")
    ensures !AddrGiven(params, "addr") ==> s == BadRequest(MissingAddr)
    ensures AddrGiven(params, "addr") ==>
      var addr := AddrOf(params, "addr");
      && s.calls == [CommentDelete(addr)]
      && s.response == JsonOk(SuccessObj(eng.commentDelete(addr)))
  {
    WithAddr(params, (a: duint) => (SuccessObj(eng.commentDelete(a)), CommentDelete(a)))
  }

  /** `/comment/list`: 500 plain text when the list call fails, else one object per comment. */
  function HandleCommentList(params: ParamMap, eng: Engine): (s: Step)
    ensures s.calls == [CommentList]
    ensures s.response.status == 500 <==> eng.comments.None?
    ensures eng.comments.None? ==> s.response == PlainText(500, "Failed to get comment list")
    ensures eng.comments.Some? ==> s.response == JsonOk(JArr(ListItems(eng.comments.value, AnnotationJson)))
  {
    ListStep(eng.comments, CommentList, "Failed to get comment list", AnnotationJson)
  }

  /** The text a label or comment get reports reads back to exactly the engine's text. */
  lemma GetTextReadsBack(r: (bool, string))
    ensures TextResult(r).members[1].value == JStr(r.1)
    ensures var t := Render(JStr(r.1)); Unescape(t[1..|t| - 1]) == Some(r.1)
  {
    StringRoundTrip(r.1);
  }
}
