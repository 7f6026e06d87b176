/**
 * The CPU flag endpoints of `include/mcp_handlers_flags.h`: the
 * case-insensitive flag name parser and the get / set / get-all handlers.
 */
module Flags {
  import opened Wrappers
  import opened Codec
  import opened Text
  import opened Query
  import opened Params
  import opened Http
  import opened Engine

  /** The lower-case spelling of each flag. */
  function FlagName(f: Flag): string
  {
    match f
    case ZF => "zf"
    case OF => "of"
    case CF => "cf"
    case PF => "pf"
    case SF => "sf"
    case TF => "tf"
    case AF => "af"
    case DF => "df"
    case IF => "if"
  }

  /** The nine flags in the order `/flags/get_all` reports them. */
  const AllFlags: seq<Flag> := [ZF, OF, CF, PF, SF, TF, AF, DF, IF]

  /** `AllFlags` names every flag exactly once. */
  lemma AllFlagsComplete()
    ensures forall f: Flag :: f in AllFlags
    ensures forall i, j :: 0 <= i < j < |AllFlags| ==> AllFlags[i] != AllFlags[j]
  {
    forall f: Flag
      ensures f in AllFlags
    {
      match f
      case ZF => assert AllFlags[0] == f;
      case OF => assert AllFlags[1] == f;
      case CF => assert AllFlags[2] == f;
      case PF => assert AllFlags[3] == f;
      case SF => assert AllFlags[4] == f;
      case TF => assert AllFlags[5] == f;
      case AF => assert AllFlags[6] == f;
      case DF => assert AllFlags[7] == f;
      case IF => assert AllFlags[8] == f;
    }
  }

  /**
   * `ParseFlag`: the name, lower-cased, must spell one of the nine flags.
   * The result is the flag whose spelling that is; no other name is accepted.
   */
  function ParseFlag(name: string): (r: Option<Flag>)
    ensures r.Some? ==> FlagName(r.value) == ToLower(name)
    ensures r.None? ==> forall f: Flag :: FlagName(f) != ToLower(name)
  {
    var lower := ToLower(name);
    if lower == "zf" then Some(ZF)
    else if lower == "of" then Some(OF)
    else if lower == "cf" then Some(CF)
    else if lower == "pf" then Some(PF)
    else if lower == "sf" then Some(SF)
    else if lower == "tf" then Some(TF)
    else if lower == "af" then Some(AF)
    else if lower == "df" then Some(DF)
    else if lower == "if" then Some(IF)
    else None
  }

  /** Each flag's spelling, and its upper-case form, parse to that flag. */
  lemma ParseFlagNames(f: Flag)
    ensures ParseFlag(FlagName(f)) == Some(f)
    ensures ParseFlag(ToUpper(FlagName(f))) == Some(f)
  {
    LowerOfUpper(FlagName(f));
    assert ToLower(FlagName(f)) == FlagName(f);
  }

  /** Case does not matter: upper-casing a name never changes how it parses. */
  lemma ParseFlagIgnoresCase(name: string)
    ensures ParseFlag(ToUpper(name)) == ParseFlag(name)
  {
    LowerOfUpper(name);
  }

  /** An accepted flag name is two letters, so echoing it unescaped is harmless. */
  lemma AcceptedFlagNeedsNoEscape(name: string)
    requires ParseFlag(name).Some?
    ensures NoEscapes(name)
  {
    var lower := ToLower(name);
    assert |lower| == 2;
    assert forall i :: 0 <= i < |name| ==> 'a' <= LowerChar(name[i]) <= 'z';
  }

  const MissingFlag := "Missing 'flag' parameter"
  const InvalidFlag := "Invalid flag name (use: ZF, OF, CF, PF, SF, TF, AF, DF, IF)"
  const MissingFlagOrValue := "Missing 'flag' or 'value' parameter"

  /**
   * `/flag/get`: 400 without the engine when `flag` is missing or names no
   * flag; otherwise one read of that flag, reported beside the name exactly
   * as it was supplied.
   */
  function HandleFlagGet(params: ParamMap, eng: Engine): (s: Step)
    ensures s.response.status == 400 <==> "flag" !in params || ParseFlag(params["flag"]).None?
    ensures "flag" !in params ==> s == BadRequest(MissingFlag)
    ensures "flag" in params && ParseFlag(params["flag"]).None? ==> s == BadRequest(InvalidFlag)
    ensures s.response.status != 400 ==>
      var f := ParseFlag(params["flag"]).value;
      && s.calls == [FlagGet(f)]
      && s.response == JsonOk(JObj([Member("flag", JVerbatim(params["flag"])), Member("value", JBool(eng.flagGet(f)))]))
  {
    var (found, flagName) := GetParam(params, "flag", "");
    if !found then BadRequest(MissingFlag)
    else
      match ParseFlag(flagName)
      case None => BadRequest(InvalidFlag)
      case Some(f) =>
        var value := eng.flagGet(f);
        Step(JsonOk(JObj([Member("flag", JVerbatim(flagName)), Member("value", JBool(value))])), [FlagGet(f)])
  }

  /** The echoed flag name reads the same whether or not it is escaped. */
  lemma FlagGetEchoIsJson(params: ParamMap, eng: Engine)
    requires "flag" in params && ParseFlag(params["flag"]).Some?
    ensures Render(JVerbatim(params["flag"])) == Render(JStr(params["flag"]))
  {
    AcceptedFlagNeedsNoEscape(params["flag"]);
    VerbatimIsEscaped(params["flag"]);
  }

  /**
   * `/flag/set`: 400 unless both `flag` and `value` are present, and a
   * separate 400 for an unknown flag, neither touching the engine; otherwise
   * one write, setting the flag exactly when the value is `true`, `1` or `yes`.
   */
  function HandleFlagSet(params: ParamMap, eng: Engine): (s: Step)
    ensures s.response.status == 400 <==> "flag" !in params || "value" !in params || ParseFlag(params["flag"]).None?
    ensures "flag" !in params || "value" !in params ==> s == BadRequest(MissingFlagOrValue)
    ensures "flag" in params && "value" in params && ParseFlag(params["flag"]).None? ==> s == BadRequest(InvalidFlag)
    ensures s.response.status != 400 ==>
      var f := ParseFlag(params["flag"]).value;
      var on := Truthy(params["value"]);
      && s.calls == [FlagSet(f, on)]
      && s.response == JsonOk(SuccessObj(eng.flagSet(f, on)))
  {
    var (hasFlag, flagName) := GetParam(params, "flag", "");
    var (hasValue, value) := GetParamBool(params, "value", false);
    if !hasFlag || !hasValue then BadRequest(MissingFlagOrValue)
    else
      match ParseFlag(flagName)
      case None => BadRequest(InvalidFlag)
      case Some(f) => Step(JsonOk(SuccessObj(eng.flagSet(f, value))), [FlagSet(f, value)])
  }

  /** The upper-case key `/flags/get_all` uses for a flag. */
  function FlagKey(f: Flag): (k: string)
    ensures ToLower(k) == FlagName(f)
  {
    match f
    case ZF => "ZF"
    case OF => "OF"
    case CF => "CF"
    case PF => "PF"
    case SF => "SF"
    case TF => "TF"
    case AF => "AF"
    case DF => "DF"
    case IF => "IF"
  }

  /** Each flag of `AllFlags`, in order, under its upper-case key. */
  function AllFlagMembers(eng: Engine): (ms: seq<Member>)
    ensures |ms| == |AllFlags|
    ensures forall i :: 0 <= i < |ms| ==> ms[i] == Member(FlagKey(AllFlags[i]), JBool(eng.flagGet(AllFlags[i])))
  {
    seq(|AllFlags|, i requires 0 <= i < |AllFlags| => Member(FlagKey(AllFlags[i]), JBool(eng.flagGet(AllFlags[i]))))
  }

  /** One read of each flag, in `AllFlags` order. */
  function AllFlagReads(): (calls: seq<EngineCall>)
    ensures |calls| == |AllFlags|
    ensures forall i :: 0 <= i < |calls| ==> calls[i] == FlagGet(AllFlags[i])
  {
    seq(|AllFlags|, i requires 0 <= i < |AllFlags| => FlagGet(AllFlags[i]))
  }

  /**
   * `/flags/get_all`: reads no parameter and never fails; reads the nine
   * flags in the order ZF, OF, CF, PF, SF, TF, AF, DF, IF and reports each
   * under its upper-case name, in that same order.
   */
  function HandleFlagsGetAll(params: ParamMap, eng: Engine): (s: Step)
    ensures s.response.status == 200 && s.response.contentType == ApplicationJson
    ensures |s.calls| == 9 && forall i :: 0 <= i < 9 ==> s.calls[i] == FlagGet(AllFlags[i])
    ensures s.response.body == Render(JObj(AllFlagMembers(eng)))
  {
    Step(JsonOk(JObj(AllFlagMembers(eng))), AllFlagReads())
  }

  /** Every flag is reported exactly once, under its own key, with the value the engine reads for it. */
  lemma GetAllReportsEveryFlag(eng: Engine, f: Flag)
    ensures exists i :: 0 <= i < |AllFlagMembers(eng)| && AllFlagMembers(eng)[i] == Member(FlagKey(f), JBool(eng.flagGet(f)))
    ensures forall i, j :: 0 <= i < j < |AllFlagMembers(eng)| ==> AllFlagMembers(eng)[i].key != AllFlagMembers(eng)[j].key
  {
    AllFlagsComplete();
    assert f in AllFlags;
    var i :| 0 <= i < |AllFlags| && AllFlags[i] == f;
    assert AllFlagMembers(eng)[i] == Member(FlagKey(f), JBool(eng.flagGet(f)));
    forall i, j | 0 <= i < j < |AllFlags|
      ensures FlagKey(AllFlags[i]) != FlagKey(AllFlags[j])
    {
      assert ToLower(FlagKey(AllFlags[i])) == FlagName(AllFlags[i]);
      ParseFlagNames(AllFlags[i]);
      ParseFlagNames(AllFlags[j]);
    }
  }
}
