/** The stack endpoints of `include/mcp_handlers_stack.h`. */
module Stack {
  import opened Wrappers
  import opened Numerals
  import opened Codec
  import opened Query
  import opened Params
  import opened Http
  import opened Engine

  const MissingValue := "Missing 'value' parameter"

  /**
   * `/stack/push`: 400 without the engine unless `value` parses; otherwise
   * one push of that value, reporting success and the previous top of stack.
   */
  function HandleStackPush(params: ParamMap, eng: Engine): (s: Step)
    ensures s.response.status == 400 <==> !AddrGiven(params, "value")
    ensures !AddrGiven(params, "value") ==> s == BadRequest(MissingValue)
    ensures AddrGiven(params, "value") ==>
      var v := AddrOf(params, "value");
      && s.calls == [StackPush(v)]
      && s.response == JsonOk(JObj([Member("success", JBool(true)), HexField("previous_top", eng.stackPush(v))]))
  {
    var (found, value) := GetParamAddr(params, "value", 0);
    if !found then BadRequest(MissingValue)
    else
      var prevTop := eng.stackPush(value);
      Step(JsonOk(JObj([Member("success", JBool(true)), HexField("previous_top", prevTop)])), [StackPush(value)])
  }

  function PopJson(value: duint): Json
  {
    JObj([Member("success", JBool(true)), HexField("value", value)])
  }

  /** The pop object prints as the text `HandleStackPop` streams. */
  lemma PopText(value: duint)
    ensures Render(PopJson(value)) == "{\"success\":true,\"value\":\"" + ToHex(value) + "\"}"
  {
    var m1 := Member("success", JBool(true));
    var m2 := HexField("value", value);
    assert [m1, m2] == [m1] + [m2];
    RenderMembersCons(m1, [m2]);
    PopPieces(value);
    PopRegroup("\"success\":true", "\"value\":\"", ToHex(value), "\"");
    PopLiterals();
  }

  lemma PopPieces(value: duint)
    ensures RenderMember(Member("success", JBool(true))) == "\"success\":true"
    ensures RenderMember(HexField("value", value)) == "\"value\":\"" + ToHex(value) + "\""
  {
    assert "\"" + "value" + "\":" + "\"" == "\"value\":\"";
  }

  lemma PopRegroup(a: string, kb: string, b: string, q: string)
    ensures "{" + (a + "," + (kb + b + q)) + "}" == ("{" + a + "," + kb) + b + (q + "}")
  {
  }

  lemma PopLiterals()
    ensures "{" + "\"success\":true" + "," + "\"value\":\"" == "{\"success\":true,\"value\":\""
    ensures "\"" + "}" == "\"}"
  {
  }

  /** `/stack/pop`: always 200 JSON; one pop, reported as a success with the popped value in hex. */
  function HandleStackPop(params: ParamMap, eng: Engine): (s: Step)
    ensures s.response.status == 200 && s.response.contentType == ApplicationJson
    ensures s.calls == [StackPop]
    ensures s.response.body == "{\"success\":true,\"value\":\"" + ToHex(eng.stackPop) + "\"}"
  {
    PopText(eng.stackPop);
    Step(JsonOk(PopJson(eng.stackPop)), [StackPop])
  }

  /** `/stack/pop` reads no parameter: its outcome is the same for every parameter map. */
  lemma StackPopIgnoresParams(p1: ParamMap, p2: ParamMap, eng: Engine)
    ensures HandleStackPop(p1, eng) == HandleStackPop(p2, eng)
  {
  }

  /** The peek offset: the parsed `offset`, else 0. */
  function PeekOffset(params: ParamMap): nat
  {
    IntOr(params, "offset", 0)
  }

  function PeekJson(offset: nat, value: duint): Json
  {
    JObj([Member("success", JBool(true)), Member("offset", JNum(offset)), HexField("value", value)])
  }

  /** The peek object prints as the text `HandleStackPeek` streams. */
  lemma PeekText(offset: nat, value: duint)
    ensures Render(PeekJson(offset, value))
      == "{\"success\":true,\"offset\":" + Decimal(offset) + ",\"value\":\"" + ToHex(value) + "\"}"
  {
    var n, h := Decimal(offset), ToHex(value);
    PeekMembers(offset, value);
    PeekPieces(offset, value);
    PeekRegroup("\"success\":true", "\"offset\":", n, "\"value\":\"", h, "\"");
    PeekLiterals();
  }

  /** The object's members, printed one after the other between commas. */
  lemma PeekMembers(offset: nat, value: duint)
    ensures var m := PeekJson(offset, value).members;
      |m| == 3 && RenderMembers(m) == RenderMember(m[0]) + "," + (RenderMember(m[1]) + "," + RenderMember(m[2]))
  {
    var m1 := Member("success", JBool(true));
    var m2 := Member("offset", JNum(offset));
    var m3 := HexField("value", value);
    assert [m1, m2, m3] == [m1] + [m2, m3] && [m2, m3] == [m2] + [m3];
    RenderMembersCons(m1, [m2, m3]);
    RenderMembersCons(m2, [m3]);
  }

  lemma PeekPieces(offset: nat, value: duint)
    ensures var m := PeekJson(offset, value).members;
      && RenderMember(m[0]) == "\"success\":true"
      && RenderMember(m[1]) == "\"offset\":" + Decimal(offset)
      && RenderMember(m[2]) == "\"value\":\"" + ToHex(value) + "\""
  {
    PopPieces(value);
    assert "\"" + "offset" + "\":" == "\"offset\":";
  }

  lemma PeekRegroup(a: string, kb: string, b: string, kc: string, c: string, q: string)
    ensures "{" + (a + "," + ((kb + b) + "," + (kc + c + q))) + "}"
      == ("{" + a + "," + kb) + b + ("," + kc) + c + (q + "}")
  {
  }

  lemma PeekLiterals()
    ensures "{" + "\"success\":true" + "," + "\"offset\":" == "{\"success\":true,\"offset\":"
    ensures "," + "\"value\":\"" == ",\"value\":\""
    ensures "\"" + "}" == "\"}"
  {
  }

  /**
   * `/stack/peek`: never 400; one peek at the offset (0 when `offset` is
   * absent or does not parse), reported with that offset and the value.
   */
  function HandleStackPeek(params: ParamMap, eng: Engine): (s: Step)
    ensures s.response.status == 200 && s.response.contentType == ApplicationJson
    ensures s.calls == [StackPeek(PeekOffset(params))]
    ensures s.response.body
      == "{\"success\":true,\"offset\":" + Decimal(PeekOffset(params)) + ",\"value\":\"" + ToHex(eng.stackPeek(PeekOffset(params))) + "\"}"
  {
    var offset := PeekOffset(params);
    var value := eng.stackPeek(offset);
    PeekText(offset, value);
    Step(JsonOk(PeekJson(offset, value)), [StackPeek(offset)])
  }

  /** Without an `offset` parameter the top of stack is peeked. */
  lemma PeekDefaultsToTop(params: ParamMap, eng: Engine)
    requires "offset" !in params
    ensures HandleStackPeek(params, eng).calls == [StackPeek(0)]
  {
  }
}
