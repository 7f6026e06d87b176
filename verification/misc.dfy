/** The expression and symbol resolution endpoints of `include/mcp_handlers_misc.h`. */
module Misc {
  import opened Wrappers
  import opened Numerals
  import opened Codec
  import opened Query
  import opened Params
  import opened Http
  import opened Engine

  const MissingExpr := "Missing 'expr' parameter"
  const MissingModuleOrApi := "Missing 'module' or 'api' parameter"

  /**
   * `/misc/parse_expression`: 400 without the engine when `expr` is missing;
   * otherwise one evaluation, echoing the expression escaped and the value
   * (0 unless the engine wrote one), whether or not evaluation succeeded.
   */
  function HandleParseExpression(params: ParamMap, eng: Engine): (s: Step)
    ensures s.response.status == 400 <==> "expr" !in params
    ensures "expr" !in params ==> s == BadRequest(MissingExpr)
    ensures "expr" in params ==>
      var e := params["expr"];
      var (ok, written) := eng.parseExpression(e);
      && s.calls == [ParseExpression(e)]
      && s.response == JsonOk(JObj([Member("success", JBool(ok)), Member("expression", JStr(e)), HexField("value", written.GetOr(0))]))
  {
    var (found, expression) := GetParam(params, "expr", "");
    if !found then BadRequest(MissingExpr)
    else
      var (success, written) := eng.parseExpression(expression);
      var value := match written case Some(v) => v case None => 0;
      Step(JsonOk(JObj([Member("success", JBool(success)), Member("expression", JStr(expression)), HexField("value", value)])), [ParseExpression(expression)])
  }

  /**
   * `/misc/resolve_label`: 400 without the engine when `label` is missing;
   * otherwise one lookup, `success` exactly when the address is non-zero.
   */
  function HandleResolveLabel(params: ParamMap, eng: Engine): (s: Step)
    ensures s.response.status == 400 <==> "label" !in params
    ensures "label" !in params ==> s == BadRequest(MissingLabel)
    ensures "label" in params ==>
      var addr := eng.resolveLabel(params["label"]);
      && s.calls == [ResolveLabel(params["label"])]
      && s.response == JsonOk(JObj([Member("success", JBool(addr != 0)), Member("label", JStr(params["label"])), HexField("address", addr)]))
  {
    var (found, labelText) := GetParam(params, "label", "");
    if !found then BadRequest(MissingLabel)
    else
      var addr := eng.resolveLabel(labelText);
      Step(JsonOk(JObj([Member("success", JBool(addr != 0)), Member("label", JStr(labelText)), HexField("address", addr)])), [ResolveLabel(labelText)])
  }

  /**
   * `/misc/get_proc_address`: 400 without the engine unless both `module`
   * and `api` are present; otherwise one lookup, `success` exactly when the
   * address is non-zero, both names echoed escaped.
   */
  function HandleGetProcAddress(params: ParamMap, eng: Engine): (s: Step)
    ensures s.response.status == 400 <==> "module" !in params || "api" !in params
    ensures "module" !in params || "api" !in params ==> s == BadRequest(MissingModuleOrApi)
    ensures "module" in params && "api" in params ==>
      var addr := eng.getProcAddress(params["module"], params["api"]);
      && s.calls == [GetProcAddress(params["module"], params["api"])]
      && s.response == JsonOk(JObj([Member("success", JBool(addr != 0)), Member("module", JStr(params["module"])), Member("api", JStr(params["api"])), HexField("address", addr)]))
  {
    var (hasModule, modName) := GetParam(params, "module", "");
    var (hasApi, api) := GetParam(params, "api", "");
    if !hasModule || !hasApi then BadRequest(MissingModuleOrApi)
    else
      var addr := eng.getProcAddress(modName, api);
      Step(JsonOk(JObj([Member("success", JBool(addr != 0)), Member("module", JStr(modName)), Member("api", JStr(api)), HexField("address", addr)])), [GetProcAddress(modName, api)])
  }
}
