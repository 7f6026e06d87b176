/** The assembler endpoints of `include/mcp_handlers_assembler.h`. */
module Assembler {
  import opened Wrappers
  import opened Numerals
  import opened Codec
  import opened Query
  import opened Params
  import opened Http
  import opened Engine
  import opened HexData

  const MissingAddrOrInstruction := "Missing 'addr' or 'instruction' parameter"

  /** `addr` parses and `instruction` is present. */
  predicate AsmArgsGiven(params: ParamMap)
  {
    AddrGiven(params, "addr") && "instruction" in params
  }

  /**
   * `/assembler/assemble_mem`: 400 without the engine unless `addr` parses and
   * `instruction` is present; otherwise one assemble-into-memory call and a
   * body holding only its result.
   */
  function HandleAssembleMem(params: ParamMap, eng: Engine): (s: Step)
    ensures s.response.status == 400 <==> !AsmArgsGiven(params)
    ensures !AsmArgsGiven(params) ==> s == BadRequest(MissingAddrOrInstruction)
    ensures AsmArgsGiven(params) ==>
      var addr := AddrOf(params, "addr");
      && s.calls == [AssembleMem(addr, params["instruction"])]
      && s.response == JsonOk(SuccessObj(eng.assembleMem(addr, params["instruction"])))
  {
    var (hasAddr, addr) := GetParamAddr(params, "addr", 0);
    var (hasInstr, instruction) := GetParam(params, "instruction", "");
    if !hasAddr || !hasInstr then BadRequest(MissingAddrOrInstruction)
    else Step(JsonOk(SuccessObj(eng.assembleMem(addr, instruction))), [AssembleMem(addr, instruction)])
  }

  /** The size `/assembler/assemble` reports: what the engine wrote, else 0. */
  function AsmSizeOf(a: Assembly): (n: AsmSize)
    ensures a.size.Some? ==> n == a.size.value
    ensures a.size.None? ==> n == 0
  {
    a.size.GetOr(0)
  }

  /** The encoded bytes, two lowercase hex digits per byte of `dest[0..size)`. */
  function AsmBytes(a: Assembly): (hex: string)
    ensures |hex| == 2 * AsmSizeOf(a) && AllLowerHex(hex)
    ensures DecodeHexData(hex) == Success(a.dest[..AsmSizeOf(a)])
  {
    DecodeBytesHex(a.dest[..AsmSizeOf(a)]);
    BytesHex(a.dest[..AsmSizeOf(a)])
  }

  /**
   * `/assembler/assemble`: 400 without the engine unless `addr` parses and
   * `instruction` is present; otherwise one assemble call, reporting its
   * result, the size, and the bytes of the buffer up to that size.
   */
  function HandleAssemble(params: ParamMap, eng: Engine): (s: Step)
    ensures s.response.status == 400 <==> !AsmArgsGiven(params)
    ensures !AsmArgsGiven(params) ==> s == BadRequest(MissingAddrOrInstruction)
    ensures AsmArgsGiven(params) ==>
      var addr := AddrOf(params, "addr");
      var a := eng.assemble(addr, params["instruction"]);
      && s.calls == [Assemble(addr, params["instruction"])]
      && s.response == JsonOk(JObj([Member("success", JBool(a.success)), Member("size", JNum(AsmSizeOf(a))), Member("bytes", JVerbatim(AsmBytes(a)))]))
  {
    var (hasAddr, addr) := GetParamAddr(params, "addr", 0);
    var (hasInstr, instruction) := GetParam(params, "instruction", "");
    if !hasAddr || !hasInstr then BadRequest(MissingAddrOrInstruction)
    else
      var a := eng.assemble(addr, instruction);
      var size := AsmSizeOf(a);
      Step(JsonOk(JObj([Member("success", JBool(a.success)), Member("size", JNum(size)), Member("bytes", JVerbatim(AsmBytes(a)))])), [Assemble(addr, instruction)])
  }
}
