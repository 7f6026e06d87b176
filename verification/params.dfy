/**
 * The typed parameter accessors of `include/mcp_common.h`.  Each takes the
 * caller's current value of the out-parameter and returns whether it
 * succeeded together with the out-parameter's new value, so "left untouched"
 * is visible in the result.
 */
module Params {
  import opened Wrappers
  import opened Numerals
  import opened Codec
  import opened Query

  /** `GetParam`: copies the mapped value when the key is present, else keeps `out`. */
  function GetParam(params: ParamMap, key: string, out: string): (r: (bool, string))
    ensures r.0 <==> key in params
    ensures r.0 ==> r.1 == params[key]
    ensures !r.0 ==> r.1 == out
  {
    if key in params then (true, params[key]) else (false, out)
  }

  /** The parameter is present and `std::stoull` accepts its value. */
  predicate AddrGiven(params: ParamMap, key: string)
  {
    key in params && Stoull(params[key]).Success?
  }

  /** The address an accepted parameter denotes, cut to the 32-bit `duint`. */
  function AddrOf(params: ParamMap, key: string): duint
    requires AddrGiven(params, key)
  {
    Narrow(Stoull(params[key]).value)
  }

  /**
   * `GetParamAddr`: succeeds exactly when the key is present and its value
   * parses; the exception of a failed parse is swallowed and `out` kept.
   */
  function GetParamAddr(params: ParamMap, key: string, out: duint): (r: (bool, duint))
    ensures r.0 <==> AddrGiven(params, key)
    ensures r.0 ==> r.1 == AddrOf(params, key)
    ensures !r.0 ==> r.1 == out
  {
    var (found, value) := GetParam(params, key, "");
    if !found then (false, out)
    else
      match Stoull(value)
      case Success(v) => (true, Narrow(v))
      case Failure(_) => (false, out)
  }

  /** The parameter is present and `std::stoi` accepts its value. */
  predicate IntGiven(params: ParamMap, key: string)
  {
    key in params && Stoi(params[key]).Success?
  }

  /** `GetParamInt`: like `GetParamAddr`, through `std::stoi`. */
  function GetParamInt(params: ParamMap, key: string, out: nat): (r: (bool, nat))
    ensures r.0 <==> IntGiven(params, key)
    ensures r.0 ==> r.1 == Stoi(params[key]).value && r.1 <= INT_MAX
    ensures !r.0 ==> r.1 == out
  {
    var (found, value) := GetParam(params, key, "");
    if !found then (false, out)
    else
      match Stoi(value)
      case Success(v) => (true, v)
      case Failure(_) => (false, out)
  }

  /**
   * An optional integer parameter as the handlers use it: they call
   * `GetParamInt` on a variable holding the default and ignore the result,
   * so the value is the parsed one when it parses and the default otherwise.
   */
  function IntOr(params: ParamMap, key: string, default: nat): (v: nat)
    ensures IntGiven(params, key) ==> v == Stoi(params[key]).value && v <= INT_MAX
    ensures !IntGiven(params, key) ==> v == default
  {
    GetParamInt(params, key, default).1
  }

  /** The three spellings `GetParamBool` reads as true; comparison is case-sensitive. */
  predicate Truthy(value: string)
  {
    value == "true" || value == "1" || value == "yes"
  }

  /** `GetParamBool`: a present key always succeeds, with `true` exactly for a truthy value. */
  function GetParamBool(params: ParamMap, key: string, out: bool): (r: (bool, bool))
    ensures r.0 <==> key in params
    ensures r.0 ==> (r.1 <==> Truthy(params[key]))
    ensures !r.0 ==> r.1 == out
  {
    var (found, value) := GetParam(params, key, "");
    if !found then (false, out) else (true, value == "true" || value == "1" || value == "yes")
  }

  /** The `manual` flag of a set request: `GetParamBool` with default false. */
  function ManualFlag(params: ParamMap): (manual: bool)
    ensures manual <==> "manual" in params && Truthy(params["manual"])
  {
    GetParamBool(params, "manual", false).1
  }

  /** An address rendered by `ToHex` and sent back as a parameter reads as that address. */
  lemma AddrRoundTrip(key: string, v: duint, out: duint)
    ensures GetParamAddr(map[key := ToHex(v)], key, out) == (true, v)
  {
    ToHexParses(v);
  }

  /** After `0x` or `0X`, the digits are hexadecimal. */
  lemma AddrHexPrefix(params: ParamMap, key: string, x: char, ds: string, out: duint)
    requires key in params && params[key] == ['0', x] + ds
    requires x == 'x' || x == 'X'
    requires |ds| > 0 && AllDigits(Hex, ds) && ValueOf(Hex, ds) < U64_LIMIT
    ensures GetParamAddr(params, key, out) == (true, Narrow(ValueOf(Hex, ds)))
  {
    StoullHexLiteral(x, ds, []);
    assert ['0', x] + ds + [] == ['0', x] + ds;
  }

  /** After any other leading `0`, the digits are octal: `"010"` is eight. */
  lemma AddrOctalPrefix(params: ParamMap, key: string, ds: string, out: duint)
    requires key in params && params[key] == "0" + ds
    requires AllDigits(Oct, ds) && ValueOf(Oct, ds) < U64_LIMIT
    ensures GetParamAddr(params, key, out) == (true, Narrow(ValueOf(Oct, ds)))
  {
    StoullOctalLiteral(ds, []);
    assert "0" + ds + [] == "0" + ds;
  }

  /** A leading 1-9 means decimal. */
  lemma AddrDecimal(params: ParamMap, key: string, ds: string, out: duint)
    requires key in params && params[key] == ds
    requires |ds| > 0 && ds[0] != '0' && AllDigits(Dec, ds) && ValueOf(Dec, ds) < U64_LIMIT
    ensures GetParamAddr(params, key, out) == (true, Narrow(ValueOf(Dec, ds)))
  {
    StoullDecimalLiteral(ds, []);
    assert ds + [] == ds;
  }

  /** A value that converts nothing (empty, not starting with a digit, or a bare `0x`) is refused. */
  lemma AddrRejectsNonNumeric(params: ParamMap, key: string, out: duint)
    requires key in params && (|params[key]| == 0 || !IsDigitOf(Dec, params[key][0]) || BareHexPrefix(params[key]))
    ensures GetParamAddr(params, key, out) == (false, out)
  {
  }
}
