/**
 * The debugger engine as the handlers see it.  Every `Script::*` and `Dbg*`
 * call the plugin makes is an answer looked up in an `Engine` value, and
 * every handler reports the calls it made, in order, so that "no engine
 * call" and "exactly this engine call" can be stated about a request.
 */
module Engine {
  import opened Wrappers
  import opened Numerals
  import opened Codec
  import opened Http
  import opened Query
  import opened Params

  /** The general-purpose registers the 32-bit build accepts by name. */
  datatype Register = EAX | EBX | ECX | EDX | ESI | EDI | EBP | ESP | EIP

  /** The nine CPU flags `Script::Flag` reads and writes. */
  datatype Flag = ZF | OF | CF | PF | SF | TF | AF | DF | IF

  /** `Script::Symbol::SymbolType`; any value beyond the three named ones is `OtherSymbol`. */
  datatype SymbolType = FunctionSymbol | ImportSymbol | ExportSymbol | OtherSymbol

  datatype ModuleInfo = ModuleInfo(name: string, base: duint, size: duint, entry: duint, path: string)

  datatype SymbolInfo = SymbolInfo(modName: string, rva: duint, name: string, manual: bool, kind: SymbolType)

  /** One entry of the label list or of the comment list: both carry the same fields. */
  datatype AnnotationInfo = AnnotationInfo(modName: string, rva: duint, text: string, manual: bool)

  datatype FunctionInfo = FunctionInfo(modName: string, rvaStart: duint, rvaEnd: duint, manual: bool, instructionCount: duint)

  datatype BookmarkInfo = BookmarkInfo(modName: string, rva: duint, manual: bool)

  /** `DbgDisasmAt`'s instruction text and length. */
  datatype Instruction = Instruction(text: string, size: nat)

  /** `Script::Function::Get`: its result and each out-parameter it wrote (`None` when left untouched). */
  datatype FunctionLookup = FunctionLookup(success: bool, start: Option<duint>, end: Option<duint>, instructionCount: Option<duint>)

  /** The 16-byte buffer `Script::Assembler::Assemble` writes into. */
  type AsmBuffer = s: seq<byte> | |s| == 16 witness seq(16, _ => 0)

  /** An instruction length the buffer can hold. */
  type AsmSize = n: nat | n <= 16

  /** `Script::Assembler::Assemble`: its result, the buffer, and the size it wrote (`None` when left untouched). */
  datatype Assembly = Assembly(success: bool, dest: AsmBuffer, size: Option<AsmSize>)

  /** The answers of the debugger for the duration of one request. */
  datatype Engine = Engine(
    isDebugging: bool,
    isRunning: bool,
    cmdExec: string -> bool,
    regGet: Register -> duint,
    regSet: (Register, duint) -> bool,
    memRead: (duint, duint) -> (bool, seq<byte>),
    memWrite: (duint, seq<byte>) -> (bool, duint),
    findMem: (duint, duint, string) -> duint,
    searchReplace: (duint, duint, string, string) -> bool,
    setBreakpoint: duint -> bool,
    deleteBreakpoint: duint -> bool,
    disasmAt: duint -> Instruction,
    modules: Option<seq<ModuleInfo>>,
    symbols: Option<seq<SymbolInfo>>,
    labelSet: (duint, string, bool) -> bool,
    labelGet: duint -> (bool, string),
    labelDelete: duint -> bool,
    labelFromString: string -> (bool, Option<duint>),
    labels: Option<seq<AnnotationInfo>>,
    commentSet: (duint, string, bool) -> bool,
    commentGet: duint -> (bool, string),
    commentDelete: duint -> bool,
    comments: Option<seq<AnnotationInfo>>,
    stackPush: duint -> duint,
    stackPop: duint,
    stackPeek: nat -> duint,
    functionAdd: (duint, duint, bool, duint) -> bool,
    functionGet: duint -> FunctionLookup,
    functionDelete: duint -> bool,
    functions: Option<seq<FunctionInfo>>,
    bookmarkSet: (duint, bool) -> bool,
    bookmarkGet: duint -> bool,
    bookmarkDelete: duint -> bool,
    bookmarks: Option<seq<BookmarkInfo>>,
    parseExpression: string -> (bool, Option<duint>),
    resolveLabel: string -> duint,
    getProcAddress: (string, string) -> duint,
    assembleMem: (duint, string) -> bool,
    assemble: (duint, string) -> Assembly,
    flagGet: Flag -> bool,
    flagSet: (Flag, bool) -> bool)

  /** One call into the debugger, with the arguments the handler passed. */
  datatype EngineCall =
    | IsDebugging | IsRunning
    | CmdExec(cmd: string)
    | RegGet(reg: Register) | RegSet(reg: Register, value: duint)
    | MemRead(addr: duint, size: duint) | MemWrite(addr: duint, data: seq<byte>)
    | FindMem(start: duint, size: duint, pattern: string)
    | SearchReplace(start: duint, size: duint, search: string, replace: string)
    | Run | Pause | StepIn | StepOver | StepOut
    | SetBreakpoint(addr: duint) | DeleteBreakpoint(addr: duint)
    | DisasmAt(addr: duint)
    | ModuleList | SymbolList
    | LabelSet(addr: duint, text: string, manual: bool) | LabelGet(addr: duint) | LabelDelete(addr: duint)
    | LabelFromString(labelText: string) | LabelList
    | CommentSet(addr: duint, text: string, manual: bool) | CommentGet(addr: duint) | CommentDelete(addr: duint)
    | CommentList
    | StackPush(value: duint) | StackPop | StackPeek(offset: nat)
    | FunctionAdd(start: duint, end: duint, manual: bool, instructionCount: duint)
    | FunctionGet(addr: duint) | FunctionDelete(addr: duint) | FunctionList
    | BookmarkSet(addr: duint, manual: bool) | BookmarkGet(addr: duint) | BookmarkDelete(addr: duint) | BookmarkList
    | ParseExpression(expr: string) | ResolveLabel(labelText: string) | GetProcAddress(modName: string, api: string)
    | AssembleMem(addr: duint, instruction: string) | Assemble(addr: duint, instruction: string)
    | FlagGet(flag: Flag) | FlagSet(flag: Flag, on: bool)

  /** What one handler did: the single response it sent and the engine calls it made. */
  datatype Step = Step(response: Response, calls: seq<EngineCall>)

  /** A 200 response carrying a JSON document. */
  function JsonOk(j: Json): Response
  {
    Response(200, ApplicationJson, Render(j))
  }

  /** A plain-text response, as the handlers send their errors. */
  function PlainText(code: nat, message: string): Response
  {
    Response(code, TextPlain, message)
  }

  /** A 400 response: a parameter is missing or malformed. */
  function BadRequest(message: string): Step
  {
    Step(PlainText(400, message), [])
  }

  /** `{"success":<b>}`, the body of most mutating endpoints. */
  function SuccessObj(b: bool): Json
  {
    JObj([Member("success", JBool(b))])
  }

  /** A `ToHex` rendering printed between quotes. */
  function HexField(key: string, v: duint): Member
  {
    Member(key, JVerbatim(ToHex(v)))
  }

  const MissingAddr := "Missing 'addr' parameter"
  const MissingLabel := "Missing 'label' parameter"

  /**
   * The shape shared by the handlers that take only an address: 400 without
   * the engine unless `addr` parses, otherwise the one call `act` makes for
   * that address and the JSON it reports.
   */
  function WithAddr(params: ParamMap, act: duint -> (Json, EngineCall)): (s: Step)
    ensures s.response.status == 400 <==> !AddrGiven(params, "addr")
    ensures !AddrGiven(params, "addr") ==> s == BadRequest(MissingAddr)
    ensures AddrGiven(params, "addr") ==>
      var (j, call) := act(AddrOf(params, "addr"));
      s == Step(JsonOk(j), [call])
  {
    var (found, addr) := GetParamAddr(params, "addr", 0);
    if !found then BadRequest(MissingAddr)
    else
      var (j, call) := act(addr);
      Step(JsonOk(j), [call])
  }

  /** One rendered object per element, in order. */
  function ListItems<T>(xs: seq<T>, render: T -> Json): (items: seq<Json>)
    ensures |items| == |xs|
    ensures forall i :: 0 <= i < |xs| ==> items[i] == render(xs[i])
  {
    seq(|xs|, i requires 0 <= i < |xs| => render(xs[i]))
  }

  /**
   * The shape shared by the list handlers: one list call; a 500 plain-text
   * response when it fails, else a 200 JSON array of the rendered elements.
   */
  function ListStep<T>(list: Option<seq<T>>, call: EngineCall, failure: string, render: T -> Json): (s: Step)
    ensures s.calls == [call]
    ensures s.response.status == 500 <==> list.None?
    ensures list.None? ==> s.response == PlainText(500, failure)
    ensures list.Some? ==> s.response == JsonOk(JArr(ListItems(list.value, render)))
  {
    match list
    case None => Step(PlainText(500, failure), [call])
    case Some(xs) => Step(JsonOk(JArr(ListItems(xs, render))), [call])
  }
}
