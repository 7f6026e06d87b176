/** The function and bookmark endpoints of `include/mcp_handlers_function.h`. */
module Functions {
  import opened Wrappers
  import opened Numerals
  import opened Codec
  import opened Query
  import opened Params
  import opened Http
  import opened Engine

  const MissingStartOrEnd := "Missing 'start' or 'end' parameter"

  // ---------------------------------------------------------------------------
  // Functions
  // ---------------------------------------------------------------------------

  /** Both bounds of a function definition parse as addresses. */
  predicate RangeGiven(params: ParamMap)
  {
    AddrGiven(params, "start") && AddrGiven(params, "end")
  }

  /** `instruction_count`: what `std::stoi` reads, 0 when it is absent or does not parse. */
  function InstructionCount(params: ParamMap): duint
  {
    IntOr(params, "instruction_count", 0)
  }

  /**
   * `/function/add`: 400 without the engine unless both `start` and `end`
   * parse; otherwise one definition with `manual` (false by default) and the
   * instruction count (0 by default).
   */
  function HandleFunctionAdd(params: ParamMap, eng: Engine): (s: Step)
    ensures s.response.status == 400 <==> !RangeGiven(params)
    ensures !RangeGiven(params) ==> s == BadRequest(MissingStartOrEnd)
    ensures RangeGiven(params) ==>
      var call := FunctionAdd(AddrOf(params, "start"), AddrOf(params, "end"), ManualFlag(params), InstructionCount(params));
      && s.calls == [call]
      && s.response == JsonOk(SuccessObj(eng.functionAdd(call.start, call.end, call.manual, call.instructionCount)))
  {
    var (hasStart, start) := GetParamAddr(params, "start", 0);
    var (hasEnd, end) := GetParamAddr(params, "end", 0);
    if !hasStart || !hasEnd then BadRequest(MissingStartOrEnd)
    else
      var manual := ManualFlag(params);
      var count := InstructionCount(params);
      Step(JsonOk(SuccessObj(eng.functionAdd(start, end, manual, count))), [FunctionAdd(start, end, manual, count)])
  }

  /** The body of `/function/get`: out-parameters the engine left untouched print as 0. */
  function FunctionJson(f: FunctionLookup): Json
  {
    JObj([Member("success", JBool(f.success)), HexField("start", f.start.GetOr(0)), HexField("end", f.end.GetOr(0)),
          Member("instruction_count", JNum(f.instructionCount.GetOr(0)))])
  }

  /**
   * `/function/get`: 400 without the engine unless `addr` parses; otherwise
   * one lookup, reporting the success flag, both bounds and the count.
   */
  function HandleFunctionGet(params: ParamMap, eng: Engine): (s: Step)
    ensures s.response.status == 400 <==> !AddrGiven(params, "addr")
    ensures !AddrGiven(params, "addr") ==> s == BadRequest(MissingAddr)
    ensures AddrGiven(params, "addr") ==>
      var addr := AddrOf(params, "addr");
      && s.calls == [FunctionGet(addr)]
      && s.response == JsonOk(FunctionJson(eng.functionGet(addr)))
  {
    WithAddr(params, (a: duint) => (FunctionJson(eng.functionGet(a)), FunctionGet(a)))
  }

  /** `/function/delete`: 400 without the engine unless `addr` parses; otherwise one delete. */
  function HandleFunctionDelete(params: ParamMap, eng: Engine): (s: Step)
    ensures s.response.status == 400 <==> !AddrGiven(params, "addr")
    ensures !AddrGiven(params, "addr") ==> s == BadRequest(MissingAddr)
    ensures AddrGiven(params, "addr") ==>
      var addr := AddrOf(params, "addr");
      && s.calls == [FunctionDelete(addr)]
      && s.response == JsonOk(SuccessObj(eng.functionDelete(addr)))
  {
    WithAddr(params, (a: duint) => (SuccessObj(eng.functionDelete(a)), FunctionDelete(a)))
  }

  function FunctionInfoJson(x: FunctionInfo): Json
  {
    JObj([Member("module", JStr(x.modName)), HexField("rva_start", x.rvaStart), HexField("rva_end", x.rvaEnd),
          Member("manual", JBool(x.manual)), Member("instruction_count", JNum(x.instructionCount))])
  }

  /** `/function/list`: 500 plain text when the list call fails, else one object per function. */
  function HandleFunctionList(params: ParamMap, eng: Engine): (s: Step)
    ensures s.calls == [FunctionList]
    ensures s.response.status == 500 <==> eng.functions.None?
    ensures eng.functions.None? ==> s.response == PlainText(500, "Failed to get function list")
    ensures eng.functions.Some? ==> s.response == JsonOk(JArr(ListItems(eng.functions.value, FunctionInfoJson)))
  {
    ListStep(eng.functions, FunctionList, "Failed to get function list", FunctionInfoJson)
  }

  // ---------------------------------------------------------------------------
  // Bookmarks
  // ---------------------------------------------------------------------------

  /**
   * `/bookmark/set`: 400 without the engine unless `addr` parses; otherwise
   * one bookmark write with `manual` (false by default).
   */
  function HandleBookmarkSet(params: ParamMap, eng: Engine): (s: Step)
    ensures s.response.status == 400 <==> !AddrGiven(params, "addr")
    ensures !AddrGiven(params, "addr") ==> s == BadRequest(MissingAddr)
    ensures AddrGiven(params, "addr") ==>
      var addr := AddrOf(params, "addr");
      && s.calls == [BookmarkSet(addr, ManualFlag(params))]
      && s.response == JsonOk(SuccessObj(eng.bookmarkSet(addr, ManualFlag(params))))
  {
    var manual := ManualFlag(params);
    WithAddr(params, (a: duint) => (SuccessObj(eng.bookmarkSet(a, manual)), BookmarkSet(a, manual)))
  }

  /**
   * `/bookmark/get`: 400 without the engine unless `addr` parses; otherwise
   * one query whose answer is the only field, `exists`.
   */
  function HandleBookmarkGet(params: ParamMap, eng: Engine): (s: Step)
    ensures s.response.status == 400 <==> !AddrGiven(params, "addr")
    ensures !AddrGiven(params, "addr") ==> s == BadRequest(MissingAddr)
    ensures AddrGiven(params, "addr") ==>
      var addr := AddrOf(params, "addr");
      && s.calls == [BookmarkGet(addr)]
      && s.response == JsonOk(JObj([Member("exists", JBool(eng.bookmarkGet(addr)))]))
  {
    WithAddr(params, (a: duint) => (JObj([Member("exists", JBool(eng.bookmarkGet(a)))]), BookmarkGet(a)))
  }

  /** `/bookmark/delete`: 400 without the engine unless `addr` parses; otherwise one delete. */
  function HandleBookmarkDelete(params: ParamMap, eng: Engine): (s: Step)
    ensures s.response.status == 400 <==> !AddrGiven(params, "addr")
    ensures !AddrGiven(params, "addr") ==> s == BadRequest(MissingAddr)
    ensures AddrGiven(params, "addr") ==>
      var addr := AddrOf(params, "addr");
      && s.calls == [BookmarkDelete(addr)]
      && s.response == JsonOk(SuccessObj(eng.bookmarkDelete(addr)))
  {
    WithAddr(params, (a: duint) => (SuccessObj(eng.bookmarkDelete(a)), BookmarkDelete(a)))
  }

  function BookmarkJson(x: BookmarkInfo): Json
  {
    JObj([Member("module", JStr(x.modName)), HexField("rva", x.rva), Member("manual", JBool(x.manual))])
  }

  /** `/bookmark/list`: 500 plain text when the list call fails, else one object per bookmark. */
  function HandleBookmarkList(params: ParamMap, eng: Engine): (s: Step)
    ensures s.calls == [BookmarkList]
    ensures s.response.status == 500 <==> eng.bookmarks.None?
    ensures eng.bookmarks.None? ==> s.response == PlainText(500, "Failed to get bookmark list")
    ensures eng.bookmarks.Some? ==> s.response == JsonOk(JArr(ListItems(eng.bookmarks.value, BookmarkJson)))
  {
    ListStep(eng.bookmarks, BookmarkList, "Failed to get bookmark list", BookmarkJson)
  }

  /**
   * Any address printed in hex (as `/function/get` itself prints `start`), sent
   * back as the `addr` parameter, is looked up unchanged.  The list's
   * `rva_start` is module-relative and is not such an address.
   */
  lemma FunctionGetAcceptsPrintedAddress(v: duint, eng: Engine)
    ensures HandleFunctionGet(map["addr" := ToHex(v)], eng).calls == [FunctionGet(v)]
  {
    AddrRoundTrip("addr", v, 0);
  }
}
