/**
 * The endpoints `HandleRequest` in `src/MCPx64dbg.cpp` answers itself rather
 * than through a handler header.  Unlike the header handlers, these read
 * numbers with a bare `std::stoull`, so a malformed number is not a 400: the
 * exception escapes, and the router turns it into a 500 JSON error.  Each
 * handler here therefore answers a `Result`: the step it took, or the
 * exception it threw (always before any engine call).
 */
module Inline {
  import opened Wrappers
  import opened Numerals
  import opened Codec
  import opened Query
  import opened Params
  import opened Http
  import opened Engine
  import opened HexData
  import opened Registers

  const PluginVersion: nat := 3
  const ArchName := "x32"
  const MaxReadSize: nat := 1024 * 1024

  const MissingCmd := "Missing 'cmd' parameter"
  const MissingName := "Missing 'name' parameter"
  const MissingNameOrValue := "Missing 'name' or 'value' parameter"
  const MissingAddrOrSize := "Missing 'addr' or 'size' parameter"
  const MissingAddrOrData := "Missing 'addr' or 'data' parameter"
  const SizeTooLarge := "Size too large (max 1MB)"
  const ReadFailed := "Failed to read memory"

  /** `duint x = std::stoull(s, nullptr, 0)`: the parse, or its exception, truncated to 32 bits. */
  function RawAddr(s: string): (r: Result<duint, StdException>)
    ensures r.Success? <==> Stoull(s).Success?
    ensures r.Success? ==> r.value == Stoull(s).value % DUINT_LIMIT
    ensures r.Failure? ==> r.error == Stoull(s).error
  {
    match Stoull(s)
    case Success(v) => Success(Narrow(v))
    case Failure(e) => Failure(e)
  }

  function StatusJson(debugging: bool, running: bool): Json
  {
    JObj([Member("version", JNum(PluginVersion)), Member("arch", JVerbatim(ArchName)),
          Member("debugging", JBool(debugging)), Member("running", JBool(running))])
  }

  /** The status object prints as the text the `/status` branch streams. */
  lemma StatusText(debugging: bool, running: bool)
    ensures Render(StatusJson(debugging, running))
      == "{\"version\":3,\"arch\":\"x32\",\"debugging\":" + BoolToJson(debugging) + ",\"running\":" + BoolToJson(running) + "}"
  {
    var d, r := BoolToJson(debugging), BoolToJson(running);
    StatusMembers(debugging, running);
    StatusPieces(debugging, running);
    StatusRegroup("\"version\":3", "\"arch\":\"x32\"", "\"debugging\":", d, "\"running\":", r);
    StatusLiterals();
  }

  /** The object's members, printed one after the other between commas. */
  lemma StatusMembers(debugging: bool, running: bool)
    ensures var m := StatusJson(debugging, running).members;
      |m| == 4 && RenderMembers(m)
        == RenderMember(m[0]) + "," + (RenderMember(m[1]) + "," + (RenderMember(m[2]) + "," + RenderMember(m[3])))
  {
    var m1 := Member("version", JNum(PluginVersion));
    var m2 := Member("arch", JVerbatim(ArchName));
    var m3 := Member("debugging", JBool(debugging));
    var m4 := Member("running", JBool(running));
    assert [m1, m2, m3, m4] == [m1] + [m2, m3, m4] && [m2, m3, m4] == [m2] + [m3, m4] && [m3, m4] == [m3] + [m4];
    RenderMembersCons(m1, [m2, m3, m4]);
    RenderMembersCons(m2, [m3, m4]);
    RenderMembersCons(m3, [m4]);
  }

  lemma StatusPieces(debugging: bool, running: bool)
    ensures var m := StatusJson(debugging, running).members;
      && RenderMember(m[0]) == "\"version\":3"
      && RenderMember(m[1]) == "\"arch\":\"x32\""
      && RenderMember(m[2]) == "\"debugging\":" + BoolToJson(debugging)
      && RenderMember(m[3]) == "\"running\":" + BoolToJson(running)
  {
    assert DecChar(3) == '3';
    assert "\"" + "debugging" + "\":" == "\"debugging\":";
    assert "\"" + "running" + "\":" == "\"running\":";
  }

  lemma StatusRegroup(a: string, b: string, kc: string, c: string, kd: string, d: string)
    ensures "{" + (a + "," + (b + "," + ((kc + c) + "," + (kd + d)))) + "}"
      == ("{" + a + "," + b + "," + kc) + c + ("," + kd) + d + "}"
  {
  }

  lemma StatusLiterals()
    ensures "{" + "\"version\":3" + "," + "\"arch\":\"x32\"" + "," + "\"debugging\":" == "{\"version\":3,\"arch\":\"x32\",\"debugging\":"
    ensures "," + "\"running\":" == ",\"running\":"
  {
    StatusHeadLiteral();
    assert "{\"version\":3,\"arch\":\"x32\"" + "," + "\"debugging\":" == "{\"version\":3,\"arch\":\"x32\",\"debugging\":";
  }

  lemma StatusHeadLiteral()
    ensures "{" + "\"version\":3" + "," + "\"arch\":\"x32\"" == "{\"version\":3,\"arch\":\"x32\""
  {
  }

  /**
   * `/status`: always 200 JSON; reads the two debugger states, in that order,
   * and reports version 3, arch `x32` and the two states.
   */
  function HandleStatus(eng: Engine): (s: Step)
    ensures s.calls == [IsDebugging, IsRunning]
    ensures s.response.status == 200 && s.response.contentType == ApplicationJson
    ensures s.response.body
      == "{\"version\":3,\"arch\":\"x32\",\"debugging\":" + BoolToJson(eng.isDebugging) + ",\"running\":" + BoolToJson(eng.isRunning) + "}"
  {
    StatusText(eng.isDebugging, eng.isRunning);
    Step(JsonOk(StatusJson(eng.isDebugging, eng.isRunning)), [IsDebugging, IsRunning])
  }

  /**
   * `/cmd`: 400 without the engine when `cmd` is missing; otherwise one
   * command execution, echoing the command escaped.
   */
  function HandleCmd(params: ParamMap, eng: Engine): (s: Step)
    ensures s.response.status == 400 <==> "cmd" !in params
    ensures "cmd" !in params ==> s == BadRequest(MissingCmd)
    ensures "cmd" in params ==>
      var cmd := params["cmd"];
      && s.calls == [CmdExec(cmd)]
      && s.response == JsonOk(JObj([Member("success", JBool(eng.cmdExec(cmd))), Member("command", JStr(cmd))]))
  {
    if "cmd" !in params then BadRequest(MissingCmd)
    else
      var cmd := params["cmd"];
      Step(JsonOk(JObj([Member("success", JBool(eng.cmdExec(cmd))), Member("command", JStr(cmd))])), [CmdExec(cmd)])
  }

  /**
   * `/register/get`: 400 without the engine when `name` is missing or names
   * no register (the error text quoting the name); otherwise one read,
   * reported beside the name exactly as it was supplied.
   */
  function HandleRegisterGet(params: ParamMap, eng: Engine): (s: Step)
    ensures s.response.status == 400 <==> "name" !in params || ParseRegister(params["name"]).Failure?
    ensures "name" !in params ==> s == BadRequest(MissingName)
    ensures "name" in params && ParseRegister(params["name"]).Failure? ==>
      s == BadRequest("Unknown register: " + params["name"])
    ensures "name" in params && ParseRegister(params["name"]).Success? ==>
      var reg := ParseRegister(params["name"]).value;
      && s.calls == [RegGet(reg)]
      && s.response == JsonOk(JObj([Member("register", JVerbatim(params["name"])), HexField("value", eng.regGet(reg))]))
  {
    if "name" !in params then BadRequest(MissingName)
    else
      var name := params["name"];
      match ParseRegister(name)
      case Failure(err) => BadRequest(err)
      case Success(reg) =>
        Step(JsonOk(JObj([Member("register", JVerbatim(name)), HexField("value", eng.regGet(reg))])), [RegGet(reg)])
  }

  /** The name `/register/get` echoes unescaped is valid JSON text: it prints as if escaped. */
  lemma RegisterEchoIsJson(params: ParamMap, eng: Engine)
    requires "name" in params && ParseRegister(params["name"]).Success?
    ensures HandleRegisterGet(params, eng).response
      == JsonOk(JObj([Member("register", JStr(params["name"])), HexField("value", eng.regGet(ParseRegister(params["name"]).value))]))
  {
    var name := params["name"];
    var value := HexField("value", eng.regGet(ParseRegister(name).value));
    AcceptedRegisterNeedsNoEscape(name);
    VerbatimIsEscaped(name);
    assert RenderMember(Member("register", JVerbatim(name))) == RenderMember(Member("register", JStr(name)));
    assert RenderMembers([Member("register", JVerbatim(name)), value]) == RenderMembers([Member("register", JStr(name)), value]);
  }

  /**
   * `/register/set`: 400 without the engine when either parameter is
   * missing or the name is unknown; then the value goes through a bare
   * `std::stoull`, whose exception escapes; otherwise one write of the value
   * truncated to 32 bits.
   */
  function HandleRegisterSet(params: ParamMap, eng: Engine): (r: Result<Step, StdException>)
    ensures r.Success? && r.value.response.status == 400 <==>
      "name" !in params || "value" !in params || ParseRegister(params["name"]).Failure?
    ensures "name" !in params || "value" !in params ==> r == Success(BadRequest(MissingNameOrValue))
    ensures r.Failure? <==>
      "name" in params && "value" in params && ParseRegister(params["name"]).Success? && Stoull(params["value"]).Failure?
    ensures r.Failure? ==> r.error == Stoull(params["value"]).error
    ensures "name" in params && "value" in params && ParseRegister(params["name"]).Success? && Stoull(params["value"]).Success? ==>
      var call := RegSet(ParseRegister(params["name"]).value, Narrow(Stoull(params["value"]).value));
      r == Success(Step(JsonOk(SuccessObj(eng.regSet(call.reg, call.value))), [call]))
  {
    if "name" !in params || "value" !in params then Success(BadRequest(MissingNameOrValue))
    else
      match ParseRegister(params["name"])
      case Failure(err) => Success(BadRequest(err))
      case Success(reg) =>
        match RawAddr(params["value"])
        case Failure(e) => Failure(e)
        case Success(value) => Success(Step(JsonOk(SuccessObj(eng.regSet(reg, value))), [RegSet(reg, value)]))
  }

  /** Both parameters of a memory access are present and parse. */
  predicate ReadArgsParse(params: ParamMap)
  {
    "addr" in params && "size" in params && Stoull(params["addr"]).Success? && Stoull(params["size"]).Success?
  }

  /** The body of a successful read: address, byte count, and the bytes as two hex digits each. */
  function ReadJson(addr: duint, bytes: seq<byte>): Json
  {
    JObj([HexField("address", addr), Member("size", JNum(|bytes|)), Member("data", JVerbatim(BytesHex(bytes)))])
  }

  /**
   * `/memory/read`: 400 without the engine when a parameter is missing; a
   * bare `std::stoull` of the address, then of the size (the first failure
   * escapes); 400 without the engine when the size, truncated to 32 bits,
   * exceeds 1 MiB; otherwise one read, 500 plain text when it fails.
   */
  function HandleMemoryRead(params: ParamMap, eng: Engine): (r: Result<Step, StdException>)
    ensures "addr" !in params || "size" !in params ==> r == Success(BadRequest(MissingAddrOrSize))
    ensures r.Failure? <==> "addr" in params && "size" in params && !ReadArgsParse(params)
    ensures r.Failure? && Stoull(params["addr"]).Failure? ==> r.error == Stoull(params["addr"]).error
    ensures r.Failure? && Stoull(params["addr"]).Success? ==> r.error == Stoull(params["size"]).error
    ensures ReadArgsParse(params) ==>
      var addr := Narrow(Stoull(params["addr"]).value);
      var size := Narrow(Stoull(params["size"]).value);
      var (ok, bytes) := eng.memRead(addr, size);
      && (size > MaxReadSize ==> r == Success(BadRequest(SizeTooLarge)))
      && (size <= MaxReadSize && !ok ==> r == Success(Step(PlainText(500, ReadFailed), [MemRead(addr, size)])))
      && (size <= MaxReadSize && ok ==> r == Success(Step(JsonOk(ReadJson(addr, bytes)), [MemRead(addr, size)])))
  {
    if "addr" !in params || "size" !in params then Success(BadRequest(MissingAddrOrSize))
    else
      match RawAddr(params["addr"])
      case Failure(e) => Failure(e)
      case Success(addr) =>
        match RawAddr(params["size"])
        case Failure(e) => Failure(e)
        case Success(size) =>
          if size > MaxReadSize then Success(BadRequest(SizeTooLarge))
          else
            var (ok, bytes) := eng.memRead(addr, size);
            if !ok then Success(Step(PlainText(500, ReadFailed), [MemRead(addr, size)]))
            else Success(Step(JsonOk(ReadJson(addr, bytes)), [MemRead(addr, size)]))
  }

  /** A read whose two parameters parse, to a size within the limit, that the engine serves. */
  lemma ReadParsed(params: ParamMap, addr: duint, size: nat, eng: Engine)
    requires "addr" in params && "size" in params
    requires Stoull(params["addr"]) == Success(addr) && Stoull(params["size"]) == Success(size)
    requires Narrow(size) <= MaxReadSize && eng.memRead(addr, Narrow(size)).0
    ensures HandleMemoryRead(params, eng)
      == Success(Step(JsonOk(ReadJson(addr, eng.memRead(addr, Narrow(size)).1)), [MemRead(addr, Narrow(size))]))
  {
    assert RawAddr(params["addr"]) == Success(addr);
    assert RawAddr(params["size"]) == Success(Narrow(size));
  }

  /**
   * The size limit is checked after truncation to 32 bits: any size of 2^32
   * or more whose low 32 bits are at most 1 MiB (2^32 + 16, say) is
   * accepted and reads only that many bytes.
   */
  lemma OversizedReadWraps(addr: duint, v: nat, eng: Engine)
    requires DUINT_LIMIT <= v < U64_LIMIT
    requires Narrow(v) <= MaxReadSize && eng.memRead(addr, Narrow(v)).0
    ensures var params := map["addr" := ToHex(addr), "size" := Decimal(v)];
      HandleMemoryRead(params, eng) == Success(Step(JsonOk(ReadJson(addr, eng.memRead(addr, Narrow(v)).1)), [MemRead(addr, Narrow(v))]))
  {
    var params := map["addr" := ToHex(addr), "size" := Decimal(v)];
    ToHexParses(addr);
    StoullDecimal(v);
    ReadParsed(params, addr, v, eng);
  }

  /**
   * `/memory/write`: 400 without the engine when a parameter is missing; a
   * bare `std::stoull` of the address, then the pair decoding loop (either
   * may throw); otherwise one write of the decoded bytes, reporting the
   * engine's success flag and written count.
   */
  function HandleMemoryWrite(params: ParamMap, eng: Engine): (r: Result<Step, StdException>)
    ensures "addr" !in params || "data" !in params ==> r == Success(BadRequest(MissingAddrOrData))
    ensures r.Failure? <==>
      ("addr" in params && "data" in params && (Stoull(params["addr"]).Failure? || DecodeHexData(params["data"]).Failure?))
    ensures r.Failure? && Stoull(params["addr"]).Failure? ==> r.error == Stoull(params["addr"]).error
    ensures r.Failure? && Stoull(params["addr"]).Success? ==> r.error == InvalidArgument("stoi")
    ensures "addr" in params && "data" in params && Stoull(params["addr"]).Success? && DecodeHexData(params["data"]).Success? ==>
      var addr := Narrow(Stoull(params["addr"]).value);
      var bytes := DecodeHexData(params["data"]).value;
      var (ok, written) := eng.memWrite(addr, bytes);
      r == Success(Step(JsonOk(JObj([Member("success", JBool(ok)), Member("bytes_written", JNum(written))])), [MemWrite(addr, bytes)]))
  {
    if "addr" !in params || "data" !in params then Success(BadRequest(MissingAddrOrData))
    else
      match RawAddr(params["addr"])
      case Failure(e) => Failure(e)
      case Success(addr) =>
        match DecodeHexData(params["data"])
        case Failure(e) => Failure(e)
        case Success(bytes) =>
          var (ok, written) := eng.memWrite(addr, bytes);
          Success(Step(JsonOk(JObj([Member("success", JBool(ok)), Member("bytes_written", JNum(written))])), [MemWrite(addr, bytes)]))
  }

  /**
   * What `/memory/read` reports, sent back to `/memory/write` at the same
   * address, writes exactly the bytes that were read.
   */
  lemma ReadThenWrite(addr: duint, bytes: seq<byte>, eng: Engine)
    ensures var params := map["addr" := ToHex(addr), "data" := BytesHex(bytes)];
      && HandleMemoryWrite(params, eng).Success?
      && HandleMemoryWrite(params, eng).value.calls == [MemWrite(addr, bytes)]
  {
    var params := map["addr" := ToHex(addr), "data" := BytesHex(bytes)];
    ToHexParses(addr);
    DecodeBytesHex(bytes);
    WriteParsed(params, addr, bytes, eng);
  }

  /** A write whose address and data both parse makes the one write call with them. */
  lemma WriteParsed(params: ParamMap, addr: duint, bytes: seq<byte>, eng: Engine)
    requires "addr" in params && Stoull(params["addr"]) == Success(addr as nat)
    requires "data" in params && DecodeHexData(params["data"]) == Success(bytes)
    ensures HandleMemoryWrite(params, eng).Success?
    ensures HandleMemoryWrite(params, eng).value.calls == [MemWrite(addr, bytes)]
  {
    assert Narrow(addr as nat) == addr;
  }

  /** The debug-control endpoints: one call, and `{"success":true}` whatever it did. */
  function HandleDebug(call: EngineCall): (s: Step)
    requires call in {Run, Pause, StepIn, StepOver, StepOut}
    ensures s.calls == [call]
    ensures s.response == Response(200, ApplicationJson, "{\"success\":true}")
  {
    Step(JsonOk(SuccessObj(true)), [call])
  }

  /**
   * `/breakpoint/set`: 400 without the engine when `addr` is missing; a bare
   * `std::stoull` whose exception escapes; otherwise one breakpoint call.
   */
  function HandleBreakpointSet(params: ParamMap, eng: Engine): (r: Result<Step, StdException>)
    ensures "addr" !in params ==> r == Success(BadRequest(MissingAddr))
    ensures r.Failure? <==> "addr" in params && Stoull(params["addr"]).Failure?
    ensures r.Failure? ==> r.error == Stoull(params["addr"]).error
    ensures "addr" in params && Stoull(params["addr"]).Success? ==>
      var addr := Narrow(Stoull(params["addr"]).value);
      r == Success(Step(JsonOk(SuccessObj(eng.setBreakpoint(addr))), [SetBreakpoint(addr)]))
  {
    if "addr" !in params then Success(BadRequest(MissingAddr))
    else
      match RawAddr(params["addr"])
      case Failure(e) => Failure(e)
      case Success(addr) => Success(Step(JsonOk(SuccessObj(eng.setBreakpoint(addr))), [SetBreakpoint(addr)]))
  }

  /** `/breakpoint/delete`: as `/breakpoint/set`, deleting. */
  function HandleBreakpointDelete(params: ParamMap, eng: Engine): (r: Result<Step, StdException>)
    ensures "addr" !in params ==> r == Success(BadRequest(MissingAddr))
    ensures r.Failure? <==> "addr" in params && Stoull(params["addr"]).Failure?
    ensures r.Failure? ==> r.error == Stoull(params["addr"]).error
    ensures "addr" in params && Stoull(params["addr"]).Success? ==>
      var addr := Narrow(Stoull(params["addr"]).value);
      r == Success(Step(JsonOk(SuccessObj(eng.deleteBreakpoint(addr))), [DeleteBreakpoint(addr)]))
  {
    if "addr" !in params then Success(BadRequest(MissingAddr))
    else
      match RawAddr(params["addr"])
      case Failure(e) => Failure(e)
      case Success(addr) => Success(Step(JsonOk(SuccessObj(eng.deleteBreakpoint(addr))), [DeleteBreakpoint(addr)]))
  }

  /** The body of `/disasm`: the address, the instruction text escaped, its length. */
  function DisasmJson(addr: duint, instr: Instruction): Json
  {
    JObj([HexField("address", addr), Member("instruction", JStr(instr.text)), Member("size", JNum(instr.size))])
  }

  /**
   * `/disasm`: 400 without the engine when `addr` is missing; a bare
   * `std::stoull` whose exception escapes; otherwise one disassembly.
   */
  function HandleDisasm(params: ParamMap, eng: Engine): (r: Result<Step, StdException>)
    ensures "addr" !in params ==> r == Success(BadRequest(MissingAddr))
    ensures r.Failure? <==> "addr" in params && Stoull(params["addr"]).Failure?
    ensures r.Failure? ==> r.error == Stoull(params["addr"]).error
    ensures "addr" in params && Stoull(params["addr"]).Success? ==>
      var addr := Narrow(Stoull(params["addr"]).value);
      r == Success(Step(JsonOk(DisasmJson(addr, eng.disasmAt(addr))), [DisasmAt(addr)]))
  {
    if "addr" !in params then Success(BadRequest(MissingAddr))
    else
      match RawAddr(params["addr"])
      case Failure(e) => Failure(e)
      case Success(addr) => Success(Step(JsonOk(DisasmJson(addr, eng.disasmAt(addr))), [DisasmAt(addr)]))
  }

  function ModuleJson(m: ModuleInfo): Json
  {
    JObj([Member("name", JStr(m.name)), HexField("base", m.base), HexField("size", m.size),
          HexField("entry", m.entry), Member("path", JStr(m.path))])
  }

  /** `/modules`: 500 plain text when the list call fails, else one object per module. */
  function HandleModules(eng: Engine): (s: Step)
    ensures s.calls == [ModuleList]
    ensures s.response.status == 500 <==> eng.modules.None?
    ensures eng.modules.None? ==> s.response == PlainText(500, "Failed to get module list")
    ensures eng.modules.Some? ==> s.response == JsonOk(JArr(ListItems(eng.modules.value, ModuleJson)))
  {
    ListStep(eng.modules, ModuleList, "Failed to get module list", ModuleJson)
  }
}
