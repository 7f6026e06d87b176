/**
 * The pattern and memory search endpoints of
 * `include/mcp_handlers_pattern.h`, including the bounded loop of
 * `/memory/search` that calls `FindMem` repeatedly from a moving cursor.
 */
module Pattern {
  import opened Wrappers
  import opened Numerals
  import opened Codec
  import opened Query
  import opened Params
  import opened Http
  import opened Engine

  const MissingFindArgs := "Missing 'start', 'size', or 'pattern' parameter"
  const MissingReplaceArgs := "Missing 'start', 'size', 'search', or 'replace' parameter"

  /** `max` when absent or unparsable. */
  const DefaultMaxResults: nat := 100

  /** `start` and `size` parse and `pattern` is present. */
  predicate SearchArgsGiven(params: ParamMap)
  {
    AddrGiven(params, "start") && AddrGiven(params, "size") && "pattern" in params
  }

  /**
   * `/pattern/find_mem`: 400 without the engine unless `start` and `size`
   * parse and `pattern` is present; otherwise one `FindMem` over exactly that
   * range, `found` being whether it returned a non-zero address.
   */
  function HandleFindMem(params: ParamMap, eng: Engine): (s: Step)
    ensures s.response.status == 400 <==> !SearchArgsGiven(params)
    ensures !SearchArgsGiven(params) ==> s == BadRequest(MissingFindArgs)
    ensures SearchArgsGiven(params) ==>
      var start := AddrOf(params, "start");
      var size := AddrOf(params, "size");
      var result := eng.findMem(start, size, params["pattern"]);
      && s.calls == [FindMem(start, size, params["pattern"])]
      && s.response == JsonOk(JObj([Member("found", JBool(result != 0)), HexField("address", result)]))
  {
    var (hasStart, start) := GetParamAddr(params, "start", 0);
    var (hasSize, size) := GetParamAddr(params, "size", 0);
    var (hasPattern, pattern) := GetParam(params, "pattern", "");
    if !hasStart || !hasSize || !hasPattern then BadRequest(MissingFindArgs)
    else
      var result := eng.findMem(start, size, pattern);
      Step(JsonOk(JObj([Member("found", JBool(result != 0)), HexField("address", result)])), [FindMem(start, size, pattern)])
  }

  /**
   * `/pattern/search_replace_mem`: 400 without the engine unless `start` and
   * `size` parse and `search` and `replace` are present; otherwise one
   * search-and-replace over that range, reporting the engine's result.
   */
  function HandleSearchReplaceMem(params: ParamMap, eng: Engine): (s: Step)
    ensures var valid := AddrGiven(params, "start") && AddrGiven(params, "size") && "search" in params && "replace" in params;
      && (s.response.status == 400 <==> !valid)
      && (!valid ==> s == BadRequest(MissingReplaceArgs))
      && (valid ==>
        var call := SearchReplace(AddrOf(params, "start"), AddrOf(params, "size"), params["search"], params["replace"]);
        && s.calls == [call]
        && s.response == JsonOk(SuccessObj(eng.searchReplace(call.start, call.size, call.search, call.replace))))
  {
    var (hasStart, start) := GetParamAddr(params, "start", 0);
    var (hasSize, size) := GetParamAddr(params, "size", 0);
    var (hasSearch, search) := GetParam(params, "search", "");
    var (hasReplace, replace) := GetParam(params, "replace", "");
    if !hasStart || !hasSize || !hasSearch || !hasReplace then BadRequest(MissingReplaceArgs)
    else Step(JsonOk(SuccessObj(eng.searchReplace(start, size, search, replace))), [SearchReplace(start, size, search, replace)])
  }

  // ---------------------------------------------------------------------------
  // /memory/search
  // ---------------------------------------------------------------------------

  /** `Script::Pattern::FindMem`: the address of the first match in a range, 0 when there is none. */
  type Finder = (duint, duint, string) -> duint

  /** The outcome of the search loop: the addresses found and the `FindMem` calls made. */
  datatype Hits = Hits(found: seq<duint>, calls: seq<EngineCall>)

  /**
   * The search loop from cursor `at` up to `end`, with room for `budget` more
   * results: it stops when the cursor reaches `end`, when the budget is used
   * up, or when `FindMem` returns 0; after a hit it resumes one byte past it
   * (in 32-bit arithmetic).
   */
  function SearchFrom(find: Finder, pattern: string, at: duint, end: duint, budget: nat): (h: Hits)
    ensures |h.found| <= budget
    ensures |h.calls| <= |h.found| + 1
    ensures budget == 0 || at >= end ==> h == Hits([], [])
    decreases budget
  {
    if at >= end || budget == 0 then Hits([], [])
    else
      var hit := find(at, end - at, pattern);
      var call := FindMem(at, end - at, pattern);
      if hit == 0 then Hits([], [call])
      else
        var rest := SearchFrom(find, pattern, Narrow(hit + 1), end, budget - 1);
        Hits([hit] + rest.found, [call] + rest.calls)
  }

  /** The engine answers a search of `[a, a + n)` with 0 or an address inside it. */
  ghost predicate FindMemInRange(find: Finder, pattern: string)
  {
    forall a: duint, n: duint :: find(a, n, pattern) == 0 || a <= find(a, n, pattern) < a + n
  }

  /** Strictly increasing addresses. */
  predicate Increasing(xs: seq<duint>)
  {
    forall i, j :: 0 <= i < j < |xs| ==> xs[i] < xs[j]
  }

  /**
   * With an engine that answers inside the range it is asked about, the
   * results are strictly increasing, all lie in `[at, end)`, and none of
   * them is 0.
   */
  lemma {:induction false} SearchFromOrdered(find: Finder, pattern: string, at: duint, end: duint, budget: nat)
    requires FindMemInRange(find, pattern)
    ensures var h := SearchFrom(find, pattern, at, end, budget);
      && Increasing(h.found)
      && (forall i :: 0 <= i < |h.found| ==> at <= h.found[i] < end && h.found[i] != 0)
    decreases budget
  {
    if at < end && budget > 0 {
      var hit := find(at, end - at, pattern);
      if hit != 0 {
        assert at <= hit < end;
        var next := Narrow(hit + 1);
        assert next == hit + 1;
        SearchFromOrdered(find, pattern, next, end, budget - 1);
      }
    }
  }

  /** The `max` the handler uses: the parsed parameter, else 100. */
  function MaxResults(params: ParamMap): nat
  {
    IntOr(params, "max", DefaultMaxResults)
  }

  /** The end of the range, `start + size` in 32-bit arithmetic. */
  function EndAddr(start: duint, size: duint): (end: duint)
    ensures start + size < DUINT_LIMIT ==> end == start + size
    ensures start + size >= DUINT_LIMIT ==> end == start + size - DUINT_LIMIT
  {
    Narrow(start + size)
  }

  /** The results as the handler prints them. */
  function ResultsJson(found: seq<duint>): (j: Json)
    ensures j.JArr? && |j.items| == |found|
    ensures forall i :: 0 <= i < |found| ==> j.items[i] == JVerbatim(ToHex(found[i]))
  {
    JArr(seq(|found|, i requires 0 <= i < |found| => JVerbatim(ToHex(found[i]))))
  }

  /**
   * `/memory/search`: 400 without the engine unless `start` and `size` parse
   * and `pattern` is present; otherwise the search loop over
   * `[start, start + size)` with at most `max` results, reported as a count
   * and the list of hex addresses.
   */
  function HandleMemorySearch(params: ParamMap, eng: Engine): (s: Step)
    ensures s.response.status == 400 <==> !SearchArgsGiven(params)
    ensures !SearchArgsGiven(params) ==> s == BadRequest(MissingFindArgs)
    ensures SearchArgsGiven(params) ==>
      var start := AddrOf(params, "start");
      var h := SearchFrom(eng.findMem, params["pattern"], start, EndAddr(start, AddrOf(params, "size")), MaxResults(params));
      && |h.found| <= MaxResults(params)
      && s.calls == h.calls
      && s.response == JsonOk(JObj([Member("count", JNum(|h.found|)), Member("results", ResultsJson(h.found))]))
  {
    var (hasStart, start) := GetParamAddr(params, "start", 0);
    var (hasSize, size) := GetParamAddr(params, "size", 0);
    var (hasPattern, pattern) := GetParam(params, "pattern", "");
    if !hasStart || !hasSize || !hasPattern then BadRequest(MissingFindArgs)
    else
      var maxResults := MaxResults(params);
      var h := SearchFrom(eng.findMem, pattern, start, EndAddr(start, size), maxResults);
      Step(JsonOk(JObj([Member("count", JNum(|h.found|)), Member("results", ResultsJson(h.found))])), h.calls)
  }

  /** `max=0` reports no result and never calls the engine. */
  lemma MemorySearchMaxZero(params: ParamMap, eng: Engine)
    requires SearchArgsGiven(params) && "max" in params && params["max"] == "0"
    ensures HandleMemorySearch(params, eng).calls == []
    ensures HandleMemorySearch(params, eng).response.body == Render(JObj([Member("count", JNum(0)), Member("results", JArr([]))]))
  {
    assert Stoi("0") == Success(0) by {
      StoiDecimal(0);
    }
    assert ResultsJson([]) == JArr([]);
  }

  /** A range whose end wraps past 2^32 is searched not at all. */
  lemma WrappedRangeSearchesNothing(params: ParamMap, eng: Engine)
    requires SearchArgsGiven(params)
    requires AddrOf(params, "start") + AddrOf(params, "size") >= DUINT_LIMIT
    ensures HandleMemorySearch(params, eng).calls == []
  {
  }

  /**
   * With an engine that answers inside the range, every reported address lies
   * in the requested range, they are strictly increasing, and there are at
   * most `max` of them.
   */
  lemma MemorySearchResults(params: ParamMap, eng: Engine)
    requires SearchArgsGiven(params) && FindMemInRange(eng.findMem, params["pattern"])
    ensures var start := AddrOf(params, "start");
      var h := SearchFrom(eng.findMem, params["pattern"], start, EndAddr(start, AddrOf(params, "size")), MaxResults(params));
      && Increasing(h.found)
      && |h.found| <= MaxResults(params)
      && forall i :: 0 <= i < |h.found| ==> start <= h.found[i] < start + AddrOf(params, "size")
  {
    var start := AddrOf(params, "start");
    SearchFromOrdered(eng.findMem, params["pattern"], start, EndAddr(start, AddrOf(params, "size")), MaxResults(params));
  }

  /**
   * The search loop with its state made explicit: the results and calls so
   * far, the cursor and the room left.  Each round is one unfolding.
   */
  function SearchAcc(find: Finder, pattern: string, at: duint, end: duint, budget: nat,
                     found: seq<duint>, calls: seq<EngineCall>): Hits
    decreases budget
  {
    if at >= end || budget == 0 then Hits(found, calls)
    else
      var hit := find(at, end - at, pattern);
      var call := FindMem(at, end - at, pattern);
      if hit == 0 then Hits(found, calls + [call])
      else SearchAcc(find, pattern, Narrow(hit as nat + 1), end, budget - 1, found + [hit], calls + [call])
  }

  /** Running the loop from some state appends to that state exactly what `SearchFrom` finds from there. */
  lemma {:induction false} SearchAccAppends(find: Finder, pattern: string, at: duint, end: duint, budget: nat,
                                            found: seq<duint>, calls: seq<EngineCall>)
    ensures var h := SearchFrom(find, pattern, at, end, budget);
      SearchAcc(find, pattern, at, end, budget, found, calls) == Hits(found + h.found, calls + h.calls)
    decreases budget
  {
    if at < end && budget > 0 {
      var hit := find(at, end - at, pattern);
      var call := FindMem(at, end - at, pattern);
      if hit == 0 {
        assert found + [] == found;
      } else {
        var next := Narrow(hit as nat + 1);
        SearchAccAppends(find, pattern, next, end, budget - 1, found + [hit], calls + [call]);
        var h := SearchFrom(find, pattern, next, end, budget - 1);
        assert (found + [hit]) + h.found == found + ([hit] + h.found);
        assert (calls + [call]) + h.calls == calls + ([call] + h.calls);
      }
    } else {
      assert found + [] == found && calls + [] == calls;
    }
  }

  /**
   * The loop as the handler runs it, with a cursor and an early exit; it
   * computes exactly `SearchFrom`.
   */
  method MemorySearchLoop(find: Finder, pattern: string, start: duint, size: duint, maxResults: nat) returns (results: seq<duint>, calls: seq<EngineCall>)
    ensures Hits(results, calls) == SearchFrom(find, pattern, start, EndAddr(start, size), maxResults)
    ensures |results| <= maxResults
  {
    var end := EndAddr(start, size);
    ghost var total := SearchAcc(find, pattern, start, end, maxResults, [], []);
    SearchAccAppends(find, pattern, start, end, maxResults, [], []);
    assert total == SearchFrom(find, pattern, start, end, maxResults);
    var searchAddr := start;
    results := [];
    calls := [];
    while searchAddr < end && |results| < maxResults
      invariant |results| <= maxResults
      invariant SearchAcc(find, pattern, searchAddr, end, maxResults - |results|, results, calls) == total
      decreases maxResults - |results|
    {
      var found := find(searchAddr, end - searchAddr, pattern);
      var call := FindMem(searchAddr, end - searchAddr, pattern);
      if found == 0 {
        calls := calls + [call];
        return;
      }
      results := results + [found];
      calls := calls + [call];
      searchAddr := Narrow(found as nat + 1);
    }
  }
}
