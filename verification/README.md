# x32dbg MCP plugin: HTTP routing and protocol layer

A Dafny model of the HTTP side of the x32dbg MCP plugin (32-bit build). A
server thread reads one request per connection. It splits the request line,
percent-decodes the query into a parameter map, and hands method, path,
parameters and body to `HandleRequest`. `HandleRequest` dispatches on the
path to 47 endpoints. Each endpoint either answers inline or
delegates to a handler header (flags, patterns, labels and comments,
functions and bookmarks, stack, expressions, assembler). Every answer goes
out through one `SendResponse` framing: status line, `Content-Type`,
`Content-Length`, two fixed headers, a blank line, then the body. A standard
exception that escapes an endpoint becomes a 500 JSON body
`{"error":"<what()>"}`.

The debugger is an `Engine` value: a record of oracle functions, one per
debugger API the endpoints call. Each endpoint is a pure function from the
parameter map and the engine to a `Step`: the response it sends, together
with the exact sequence of engine calls it makes. The inline endpoints call
`std::stoull` bare, so they return `Result<Step, StdException>`, and the
router turns a `Failure` into the 500 answer. The header handlers go through
`GetParamAddr`, which swallows the exception, so a malformed number there is
a 400 "missing parameter".

Modules, in dependency order:

- `Wrappers`: `Option` and `Result`.
- `Numerals`:
  - `std::stoull`/`std::stoi` with base 0, with their exceptions and `what()` texts;
  - the narrowing to the 32-bit `duint`;
  - hex and decimal printing.
- `Codec`: `JsonEscape`, `ToHex`, `BoolToJson`, and a JSON value type whose rendering is the text the handlers stream.
- `Text`: `find`, ASCII `tolower`, and CRLF header blocks.
- `Query`: `UrlDecode`, `ParseQuery`, and an encoder the clients use, as the partner for the round trips.
- `Params`: `GetParam`, `GetParamAddr`, `GetParamInt`, `GetParamBool`.
- `Http`: the request-line parse of the server thread, and the `SendResponse` framing.
- `HexData`: the hex-pair decoding loop of `/memory/write`.
- `Engine`: the oracle record, the call log, and the shared response shapes.
- One module per endpoint family: `Registers`, `Inline`, `Pattern`, `Annotation`, `Functions`, `Stack`, `Misc`, `Assembler`, `Flags`.
- `Router`: `HandleRequest`, the catch block, and one whole connection.

## Model

| member | source | states |
|---|---|---|
| Codec.JsonEscape | include/mcp_common.h:34-47 | the output has no raw LF, CR or TAB; it grows by exactly one character per quote, backslash, LF, CR or TAB; text with none of these comes back unchanged |
| Codec.UnescapeJsonEscape | include/mcp_common.h:34-47 | JSON-unescaping the escaped text gives back the original, so no message is corrupted by escaping |
| Codec.StringRoundTrip | include/mcp_common.h:34-47 | a string printed between quotes through `JsonEscape` reads back to exactly that string |
| Codec.ToHex | include/mcp_common.h:49-53 | an address prints as `0x` followed by lowercase hex digits whose value is the address, with no leading zero except for 0 itself, and needs no JSON escaping |
| Codec.ToHexParses | include/mcp_common.h:49-53 | `std::stoull(_, nullptr, 0)` reads the printed address back to the same address |
| Codec.BoolToJson | include/mcp_common.h:55-57 | the result is one of the two JSON literals, and it is `true` exactly for `true` |
| Codec.Render | include/mcp_common.h:34-57 | printed JSON is non-empty; its first character tells exactly which kind of value it is (`{` object, `[` array, `"` string, `t`/`f` boolean, a digit for a number), and objects, arrays and strings end with their closing delimiter |
| Codec.RenderList | include/mcp_handlers_function.h:69-92 | the list loop (`[`, a comma before every element but the first, `]`) prints exactly the JSON array of the elements |
| Numerals.Stoull | src/MCPx64dbg.cpp:280-281 | `invalid_argument` exactly when the text is empty, does not start with a decimal digit, or is a bare `0x`/`0X` with no hex digit after it (the Microsoft runtime converts nothing there); every accepted value is below 2^64 |
| Numerals.Stoi | include/mcp_common.h:103-113 | `invalid_argument` exactly when no digit starts the text or it is a bare `0x`/`0X`; every accepted value is at most `INT_MAX` |
| Numerals.StoullHexLiteral | include/mcp_common.h:91-101 | `0x`/`0X` plus hex digits parses as hexadecimal up to the first non-hex character |
| Numerals.StoullOctalLiteral | include/mcp_common.h:91-101 | a leading `0` not followed by `x`/`X` selects octal, read up to the first non-octal character; `0` alone is zero |
| Numerals.StoullDecimalLiteral | include/mcp_common.h:91-101 | a leading 1-9 selects decimal, stopping at the first non-digit |
| Numerals.StoullDecimal | src/MCPx64dbg.cpp:280-281 | the decimal text the handlers print reads back through `std::stoull` to the same value |
| Numerals.StoiDecimal | include/mcp_common.h:103-113 | the decimal text of a value up to `INT_MAX` reads back through `std::stoi` |
| Numerals.Base0Digits | include/mcp_common.h:91-101 | some digits are consumed exactly when the text starts with a decimal digit and is not `0x`/`0X` without a hex digit after it; those digits all belong to the radix selected |
| Numerals.HexPairValue | src/MCPx64dbg.cpp:317 | the value of a pair read in base 16 is below 256 and is the value of its leading hex digits, both or just the first |
| Numerals.HexDigits | include/mcp_common.h:49-53 | lowercase hex digits whose value is the number, with no leading zero except for 0 itself |
| Numerals.Decimal | include/mcp_common.h:63-77 | decimal digits whose value is the number, with no leading zero except for 0 itself |
| Numerals.ByteHex | src/MCPx64dbg.cpp:297-299 | two lowercase hex digits, zero-padded, whose value is the byte |
| Numerals.BytesHex | src/MCPx64dbg.cpp:297-299 | two lowercase hex digits per byte read |
| Text.IndexOfIsFirst | src/MCPx64dbg.cpp:603 | `find` returns a position where the pattern occurs with no occurrence before it, and `npos` only when the pattern occurs nowhere |
| Text.FindChar | src/MCPx64dbg.cpp:607-608 | a single-character `find` returns the first position holding the character, or `npos` when it occurs nowhere |
| Text.ToLower | src/MCPx64dbg.cpp:161-162 | ASCII `tolower` applied to each character, length unchanged |
| Text.LowerOfUpper | src/MCPx64dbg.cpp:161-162 | lower-casing makes upper and lower spellings coincide |
| Text.BlankLineEndsBlock | src/MCPx64dbg.cpp:625-626 | in a block of CR-free header lines followed by an empty line, the first CRLFCRLF is the one that ends the block |
| Query.UrlDecode | src/MCPx64dbg.cpp:112-131 | the decoded text is never longer than the input |
| Query.PercentByte | src/MCPx64dbg.cpp:117-120 | a `%` pair read with `std::hex` gives a byte: the value of its leading hex digits |
| Query.UrlDecodePlain | src/MCPx64dbg.cpp:112-131 | text with neither `%` nor `+` decodes to itself |
| Query.PercentBareHexPrefixIsLiteral | src/MCPx64dbg.cpp:117-123 | `%0x` or `%0X` converts nothing, since the stream sees only those two characters, so the `%` is copied literally whatever follows |
| Query.UrlDecodeEncode | src/MCPx64dbg.cpp:112-131 | decoding undoes percent-encoding for every byte string: `+`, `%XX` and plain characters are decoded as the source does |
| Query.AddSegmentsStores | src/MCPx64dbg.cpp:133-154 | the `&`-splitting loop stores exactly the `k=v` segments that contain `=`, in query order |
| Query.StorePairsKeys | src/MCPx64dbg.cpp:146-148 | after storing, the map's keys are exactly the old keys plus the keys of the pairs |
| Query.StorePairsUntouched | src/MCPx64dbg.cpp:146-148 | a key no pair mentions keeps its old value |
| Query.StorePairsLastValueAt | src/MCPx64dbg.cpp:146-148 | a pair that no later pair overrides is what its key holds after storing |
| Query.ParseQuery | src/MCPx64dbg.cpp:133-154 | the map holds exactly the keys of the query's `k=v` pairs, each with the value of its last occurrence; an empty query gives an empty map |
| Query.QueryPairsEncode | src/MCPx64dbg.cpp:133-154 | splitting an encoded query gives back the encoded pairs, in order |
| Query.ParseEncodedQuery | src/MCPx64dbg.cpp:133-154 | a query built from pairs parses to the map in which the last value of each key wins |
| Query.SplitEncodedPair | src/MCPx64dbg.cpp:143-148 | an encoded pair splits at its own `=` back into the original key and value |
| Params.GetParam | include/mcp_common.h:83-89 | found exactly when the key is present, with its value; otherwise the default is untouched |
| Params.GetParamAddr | include/mcp_common.h:91-101 | accepted exactly when the key is present and `std::stoull` accepts its value; the value is truncated to 32 bits; a failed parse keeps the default and throws nothing |
| Params.GetParamInt | include/mcp_common.h:103-113 | accepted exactly when the key is present and `std::stoi` accepts its value; otherwise the default |
| Params.GetParamBool | include/mcp_common.h:115-121 | found exactly when the key is present; the flag is true exactly for `true`, `1` or `yes` |
| Params.IntOr | include/mcp_common.h:103-113 | an optional integer (`max` of `/memory/search`, default 100; `instruction_count` of `/function/add` and `offset` of `/stack/peek`, default 0) is the parsed value when `std::stoi` accepts it, never above `INT_MAX`, and the default otherwise |
| Params.ManualFlag | include/mcp_handlers_annotation.h:57-58 | the optional `manual` flag is true exactly when it is given as `true`, `1` or `yes` |
| Params.AddrRoundTrip | include/mcp_common.h:91-101 | an address printed with `ToHex` and passed back as a parameter is accepted as the same address |
| Params.AddrHexPrefix | include/mcp_common.h:91-101 | a `0x`-prefixed parameter is read as hexadecimal, truncated to 32 bits |
| Params.AddrOctalPrefix | include/mcp_common.h:91-101 | a `0`-prefixed parameter is read as octal, truncated to 32 bits |
| Params.AddrDecimal | include/mcp_common.h:91-101 | a parameter starting with 1-9 is read as decimal, truncated to 32 bits |
| Params.AddrRejectsNonNumeric | include/mcp_common.h:91-101 | an empty or non-numeric parameter is rejected and leaves the default in place |
| Http.SplitTarget | src/MCPx64dbg.cpp:613-620 | without `?` the whole target is the path and the query is empty; otherwise the path and query are the text on either side of the first `?` |
| Http.TwoSpacesFound | src/MCPx64dbg.cpp:607-609 | the request line is accepted exactly when it has a space followed later by another space |
| Http.ParseRequest | src/MCPx64dbg.cpp:603-626 | a request is parsed exactly when it holds a CRLF and its first line has two spaces; otherwise the connection closes unanswered |
| Http.ParseRequestFields | src/MCPx64dbg.cpp:607-626 | the method holds no space; the path holds no space and no `?`; with no blank line the body is empty |
| Http.ParseFormatRequest | src/MCPx64dbg.cpp:603-626 | a well-formed request (method, `path?query`, version, CR-free headers, blank line, body) parses back to exactly its method, path, query and body |
| Http.FormattedRequestFraming | src/MCPx64dbg.cpp:625-626 | the body is everything after the first blank line, even when it contains further CRLFs |
| Http.ReasonPhrase | include/mcp_common.h:65-66 | `OK` exactly for 200, `Bad Request` exactly for 400, `Not Found` exactly for 404, `Internal Server Error` for every other code |
| Http.ResponseHeadPlain | include/mcp_common.h:68-72 | every header line of a response is non-empty and CR-free |
| Http.Serialize | include/mcp_common.h:63-77 | the sent text holds a blank line, and everything after the first one is exactly the body |
| Http.SerializeFraming | include/mcp_common.h:63-77 | in the sent bytes, the text after the first blank line is exactly the body, and `Content-Length` is the decimal of the body's length, which reads back to that length |
| HexData.PairByte | src/MCPx64dbg.cpp:317 | a pair fails, with `invalid_argument` from `stoi`, exactly when its first character is not a hex digit or it is `0x`/`0X`; otherwise the value of its leading hex digits |
| HexData.DecodeHexData | src/MCPx64dbg.cpp:314-319 | the loop succeeds exactly when every complete pair converts; it yields one byte per complete pair and fails with `stoi`'s `invalid_argument` |
| HexData.PairsParseStep | src/MCPx64dbg.cpp:315-317 | the loop's acceptance condition unrolled one pair |
| HexData.DecodeBytesHex | src/MCPx64dbg.cpp:297-299 | the hex text `/memory/read` prints decodes back through the `/memory/write` loop to the same bytes |
| HexData.TrailingCharIgnored | src/MCPx64dbg.cpp:316 | an odd trailing character is dropped without error |
| Engine.WithAddr | include/mcp_handlers_annotation.h:71-85 | a handler keyed by `addr` answers 400 with no engine call exactly when `addr` is missing or does not parse; otherwise it makes its one call at the parsed address |
| Engine.ListStep | include/mcp_handlers_annotation.h:120-142 | a list endpoint makes one call; it answers 500 plain text exactly when the engine cannot list; otherwise it answers the JSON array of one rendered object per element, in order |
| Registers.ParseRegister | src/MCPx64dbg.cpp:160-195 | an accepted name spells the register case-insensitively; a rejected name matches no register, and the error quotes the name as supplied |
| Registers.ParseRegisterNames | src/MCPx64dbg.cpp:164-172 | each of the nine registers is accepted under its own name, lower or upper case |
| Registers.ParseRegisterIgnoresCase | src/MCPx64dbg.cpp:161-162 | upper-casing a name changes neither acceptance nor the register chosen |
| Registers.AcceptedRegisterNeedsNoEscape | src/MCPx64dbg.cpp:245 | an accepted name needs no JSON escaping, so echoing it unescaped is safe |
| Inline.RawAddr | src/MCPx64dbg.cpp:280-281 | a bare `stoull` assigned to `duint`: it throws exactly when `stoull` throws, and otherwise keeps the low 32 bits |
| Inline.HandleStatus | src/MCPx64dbg.cpp:209-216 | 200 JSON, the text `{"version":3,"arch":"x32","debugging":<d>,"running":<r>}` with the two flags read in that order |
| Inline.StatusText | src/MCPx64dbg.cpp:209-213 | the status object prints as the text the stream builds |
| Inline.HandleCmd | src/MCPx64dbg.cpp:217-228 | 400 without the engine exactly when `cmd` is missing; otherwise one execution, and the command echoed escaped |
| Inline.HandleRegisterGet | src/MCPx64dbg.cpp:231-248 | 400 exactly when `name` is missing or unknown, with the matching message; otherwise one read, echoing the name and the value in hex |
| Inline.RegisterEchoIsJson | src/MCPx64dbg.cpp:245 | the unescaped echo of an accepted register name is valid JSON, equal to the escaped form |
| Inline.HandleRegisterSet | src/MCPx64dbg.cpp:249-269 | 400 exactly for a missing parameter or an unknown register; a throw exactly when the value does not parse; otherwise one write of the truncated value |
| Inline.HandleMemoryRead | src/MCPx64dbg.cpp:272-302 | 400 for a missing parameter; a throw, from the address first, when either number does not parse; 400 when the size, cut to 32 bits, exceeds 1 MiB; 500 when the read fails; otherwise address, count and hex data |
| Inline.ReadParsed | src/MCPx64dbg.cpp:272-302 | a read whose parameters parse, within the limit, that the engine serves, answers the bytes read |
| Inline.OversizedReadWraps | src/MCPx64dbg.cpp:283-289 | a size of 2^32 or more whose low 32 bits are at most 1 MiB passes the limit check and reads only the low-32-bit count |
| Inline.HandleMemoryWrite | src/MCPx64dbg.cpp:303-327 | 400 for a missing parameter; a throw when the address does not parse or a complete pair does not convert; otherwise one write of the decoded bytes, reporting success and count |
| Inline.ReadThenWrite | src/MCPx64dbg.cpp:303-327 | the address and data a read prints, sent back to `/memory/write`, write exactly those bytes at that address |
| Inline.HandleDebug | src/MCPx64dbg.cpp:341-360 | each of the five run-control endpoints makes its one call and answers `{"success":true}` |
| Inline.HandleBreakpointSet | src/MCPx64dbg.cpp:363-375 | 400 when `addr` is missing; a throw exactly when it does not parse; otherwise one call at the truncated address |
| Inline.HandleBreakpointDelete | src/MCPx64dbg.cpp:376-388 | the same discipline, for deletion |
| Inline.HandleDisasm | src/MCPx64dbg.cpp:391-406 | 400 when `addr` is missing; a throw exactly when it does not parse; otherwise the instruction text, size and address |
| Inline.HandleModules | src/MCPx64dbg.cpp:407-428 | one list call; 500 exactly when the list is unavailable; otherwise one object per module, in order |
| Pattern.HandleFindMem | include/mcp_handlers_pattern.h:14-30 | 400 without the engine exactly when `start`, `size` or `pattern` is missing or malformed; otherwise one search, with `found` true exactly for a non-zero hit |
| Pattern.HandleSearchReplaceMem | include/mcp_handlers_pattern.h:33-51 | 400 without the engine exactly when a parameter is missing or malformed; otherwise one replace call with the given arguments |
| Pattern.SearchFrom | include/mcp_handlers_pattern.h:68-76 | the search loop returns at most `max` hits, makes at most one call more than it has hits, and makes none on an empty range or zero budget |
| Pattern.SearchFromOrdered | include/mcp_handlers_pattern.h:68-76 | for an engine whose hits lie in the searched range, the hits are strictly increasing, non-zero and inside `[start, end)` |
| Pattern.EndAddr | include/mcp_handlers_pattern.h:67 | `start + size` wraps around at 2^32 |
| Pattern.HandleMemorySearch | include/mcp_handlers_pattern.h:54-88 | 400 without the engine exactly when a parameter is missing or malformed; otherwise the calls the loop makes, a count equal to the number of hits, and the hits in hex |
| Pattern.MemorySearchMaxZero | include/mcp_handlers_pattern.h:64-71 | `max=0` searches nothing and answers an empty result |
| Pattern.MemorySearchResults | include/mcp_handlers_pattern.h:54-88 | with an engine whose hits lie in range, the reported hits are increasing, at most `max`, and inside `[start, start+size)` |
| Pattern.SearchAccAppends | include/mcp_handlers_pattern.h:68-76 | running the loop from any state appends to that state exactly what the search finds from there |
| Pattern.MemorySearchLoop | include/mcp_handlers_pattern.h:64-76 | the imperative loop, with its cursor and early exit, computes exactly the hits and calls of the search |
| Annotation.SymbolTypeName | include/mcp_handlers_annotation.h:28-33 | `function`, `import` and `export` exactly for those kinds, `unknown` for any other |
| Annotation.HandleSymbolsList | include/mcp_handlers_annotation.h:14-45 | one list call; 500 exactly when the list is unavailable; otherwise one object per symbol, in order |
| Annotation.HandleLabelSet | include/mcp_handlers_annotation.h:52-68 | 400 without the engine exactly when `addr` or `text` is missing or malformed; otherwise one set call with the text and the manual flag |
| Annotation.HandleLabelGet | include/mcp_handlers_annotation.h:71-85 | 400 without the engine exactly when `addr` is missing or malformed; otherwise one get call, answering success and the escaped text |
| Annotation.HandleLabelDelete | include/mcp_handlers_annotation.h:88-100 | 400 without the engine exactly when `addr` is missing or malformed; otherwise one delete |
| Annotation.HandleLabelFromString | include/mcp_handlers_annotation.h:103-117 | 400 without the engine exactly when `label` is missing; otherwise one lookup, with the address or 0 |
| Annotation.HandleLabelList | include/mcp_handlers_annotation.h:120-142 | one list call; 500 exactly when the list is unavailable; otherwise one object per label |
| Annotation.HandleCommentSet | include/mcp_handlers_annotation.h:149-165 | as for labels, with the comment API |
| Annotation.HandleCommentGet | include/mcp_handlers_annotation.h:168-182 | as for labels, with the comment API |
| Annotation.HandleCommentDelete | include/mcp_handlers_annotation.h:185-197 | as for labels, with the comment API |
| Annotation.HandleCommentList | include/mcp_handlers_annotation.h:200-222 | as for labels, with the comment API |
| Annotation.GetTextReadsBack | include/mcp_handlers_annotation.h:80-82 | the text a get answers reads back, after unescaping, to exactly the stored text |
| Functions.HandleFunctionAdd | include/mcp_handlers_function.h:14-32 | 400 without the engine exactly when `start` or `end` is missing or malformed; otherwise one add with the range, the manual flag and the count |
| Functions.HandleFunctionGet | include/mcp_handlers_function.h:35-51 | 400 without the engine exactly when `addr` is missing or malformed; otherwise one lookup, reporting found and the range |
| Functions.HandleFunctionDelete | include/mcp_handlers_function.h:54-66 | 400 without the engine exactly when `addr` is missing or malformed; otherwise one delete |
| Functions.HandleFunctionList | include/mcp_handlers_function.h:69-92 | one list call; 500 exactly when the list is unavailable; otherwise one object per function, in order |
| Functions.HandleBookmarkSet | include/mcp_handlers_function.h:99-114 | 400 without the engine exactly when `addr` is missing or malformed; otherwise one set with the manual flag |
| Functions.HandleBookmarkGet | include/mcp_handlers_function.h:117-129 | 400 without the engine exactly when `addr` is missing or malformed; otherwise `{"exists": …}` from one query |
| Functions.HandleBookmarkDelete | include/mcp_handlers_function.h:132-144 | 400 without the engine exactly when `addr` is missing or malformed; otherwise one delete |
| Functions.HandleBookmarkList | include/mcp_handlers_function.h:147-168 | one list call; 500 exactly when the list is unavailable; otherwise one object per bookmark |
| Functions.FunctionGetAcceptsPrintedAddress | include/mcp_handlers_function.h:35-51 | an address printed with `ToHex` (the `0x…` form the handlers print) is accepted as `addr` by `/function/get` and looked up unchanged |
| Stack.HandleStackPush | include/mcp_handlers_stack.h:14-27 | 400 without the engine exactly when `value` is missing or malformed; otherwise one push, reporting the previous top |
| Stack.HandleStackPop | include/mcp_handlers_stack.h:30-37 | always 200 JSON; one pop, answered with the text `{"success":true,"value":"<hex>"}` |
| Stack.PopText | include/mcp_handlers_stack.h:32-34 | the pop object prints as the text the stream builds |
| Stack.HandleStackPeek | include/mcp_handlers_stack.h:40-51 | always 200 JSON; one peek at the offset, answered with the text `{"success":true,"offset":<n>,"value":"<hex>"}` |
| Stack.PeekText | include/mcp_handlers_stack.h:45-48 | the peek object prints as the text the stream builds |
| Misc.HandleParseExpression | include/mcp_handlers_misc.h:14-29 | 400 without the engine exactly when `expr` is missing; otherwise one evaluation, echoing the escaped expression and the value or 0 |
| Misc.HandleResolveLabel | include/mcp_handlers_misc.h:32-46 | 400 without the engine exactly when `label` is missing; otherwise one resolution, with success exactly for a non-zero address |
| Misc.HandleGetProcAddress | include/mcp_handlers_misc.h:49-64 | 400 without the engine exactly when `module` or `api` is missing; otherwise one lookup, with success exactly for a non-zero address |
| Assembler.HandleAssembleMem | include/mcp_handlers_assembler.h:14-28 | 400 without the engine exactly when `addr` or `instruction` is missing or malformed; otherwise one assemble-in-place call |
| Assembler.AsmSizeOf | include/mcp_handlers_assembler.h:40-46 | the size the assembler reports, or 0 when it reports none |
| Assembler.AsmBytes | include/mcp_handlers_assembler.h:49-51 | two hex digits per assembled byte, which decode back to exactly those bytes |
| Assembler.HandleAssemble | include/mcp_handlers_assembler.h:31-55 | 400 without the engine exactly when a parameter is missing or malformed; otherwise success, size and the bytes in hex |
| Flags.AllFlagsComplete | include/mcp_handlers_flags.h:78-92 | the nine flags, each listed once |
| Flags.ParseFlag | include/mcp_handlers_flags.h:14-30 | an accepted name spells the flag case-insensitively; a rejected name matches no flag |
| Flags.ParseFlagNames | include/mcp_handlers_flags.h:14-30 | each flag is accepted under its own name, lower or upper case |
| Flags.ParseFlagIgnoresCase | include/mcp_handlers_flags.h:15-16 | upper-casing a name does not change the result |
| Flags.AcceptedFlagNeedsNoEscape | include/mcp_handlers_flags.h:47-48 | an accepted flag name needs no JSON escaping |
| Flags.HandleFlagGet | include/mcp_handlers_flags.h:33-52 | 400 exactly for a missing or unknown flag, with the matching message; otherwise one read, echoing the name as given |
| Flags.FlagGetEchoIsJson | include/mcp_handlers_flags.h:47-48 | the unescaped echo of an accepted flag name equals its escaped form |
| Flags.HandleFlagSet | include/mcp_handlers_flags.h:55-75 | 400 exactly for a missing parameter or an unknown flag; otherwise one write of the truthy value |
| Flags.FlagKey | include/mcp_handlers_flags.h:82-90 | each key of the all-flags object is the flag's name in some case |
| Flags.HandleFlagsGetAll | include/mcp_handlers_flags.h:78-92 | always 200 JSON; nine reads in order; one member per flag |
| Flags.GetAllReportsEveryFlag | include/mcp_handlers_flags.h:78-92 | every flag appears in the object with its current value, and no key repeats |
| Router.RouteControl | src/MCPx64dbg.cpp:209-327 | answers exactly the status, command, register and memory read/write paths; each successful answer is disciplined (below) |
| Router.RouteSearch | src/MCPx64dbg.cpp:330-338 | answers exactly the three search paths; each successful answer is disciplined |
| Router.RouteDebug | src/MCPx64dbg.cpp:341-428 | answers exactly the run-control, breakpoint, disassembly and module paths; each successful answer is disciplined |
| Router.RouteAnnotations | src/MCPx64dbg.cpp:431-460 | answers exactly the symbol, label and comment paths; each successful answer is disciplined |
| Router.RouteAnalysis | src/MCPx64dbg.cpp:463-497 | answers exactly the stack, function and bookmark paths; each successful answer is disciplined |
| Router.RouteUtilities | src/MCPx64dbg.cpp:500-527 | answers exactly the expression, assembler and flag paths; each successful answer is disciplined |
| Router.Route | src/MCPx64dbg.cpp:209-531 | a path is answered exactly when it is one of the endpoints; every successful answer is 200 JSON, 400 plain text without engine calls, or 500 |
| Router.ErrorResponse | src/MCPx64dbg.cpp:533-536 | an escaped exception is a 500 JSON object whose one member `error` carries `what()` |
| Router.ErrorBodyRenders | src/MCPx64dbg.cpp:534 | the catch block's string concatenation is exactly the JSON object `{"error": what()}` |
| Router.ErrorMessageReadsBack | src/MCPx64dbg.cpp:533-536 | the error body starts `{"error":`, ends `}`, and its string unescapes to exactly `what()` |
| Router.HandleRequest | src/MCPx64dbg.cpp:200-537 | 404 `Endpoint not found` with no engine call exactly for an unknown path; a known path answers as its endpoint did; a thrown exception becomes the 500 JSON error with no engine call |
| Router.Answer | src/MCPx64dbg.cpp:529-536 | no route gives the 404 plain-text answer; an escaped exception the 500 JSON error; otherwise the endpoint's own step |
| Router.BreakpointSetRoute | src/MCPx64dbg.cpp:363 | `/breakpoint/set` reaches the inline breakpoint handler |
| Router.LabelGetRoute | src/MCPx64dbg.cpp:437-439 | `/label/get` reaches the header handler |
| Router.MalformedAddressThrows | src/MCPx64dbg.cpp:363-375 | a malformed `addr` at an inline endpoint answers the 500 `invalid stoull argument` error with no engine call |
| Router.MalformedAddressIsMissing | include/mcp_handlers_annotation.h:71-78 | the same malformed `addr` at a header endpoint answers 400 `Missing 'addr' parameter` |
| Router.ServeConnection | src/MCPx64dbg.cpp:603-629 | an unparsable request gets no answer; otherwise exactly one framed response to the decoded request |
| Router.ServeFormattedRequest | src/MCPx64dbg.cpp:603-629 | a well-formed request carrying encoded pairs is answered as `HandleRequest` answers those pairs, and the client finds the body after the first blank line |

"Disciplined" means status 200, 400 or 500. A 200 is `application/json`. A
400 is `text/plain` and follows no engine call.

## Left out

- Sockets, Winsock start-up, the server thread's accept loop and its 10 ms sleep, and the plugin lifecycle. `ServeConnection` models one connection from the received bytes to the bytes sent.
- The 16383-byte `recv` cap and the cut at the first NUL byte. `ServeConnection` takes the request text as received.
- Leading whitespace and `+`/`-` signs in `std::stoull`, `std::stoi`, the `istringstream` of `UrlDecode`, and the `stoi(_, nullptr, 16)` of `/memory/write`. The model accepts only text that starts with a digit, so such inputs fail in the model where the C++ library would parse them.
- Negative `max` in `/memory/search` and negative `offset` in `/stack/peek`. `GetParamInt` yields a `nat`, so a signed value the library would accept is rejected in the model and the default is used.
- The `_WIN64` register names of `ParseRegister`. The model is the 32-bit build, where `duint` is 32 bits wide.
- `std::bad_alloc` from `std::vector<unsigned char> buffer(size)`. The size is at most 1 MiB there.
- Debugger state between requests. The engine is a fixed oracle per request, and each step records the calls made rather than their effects.
- The Python MCP client and its tests. They live outside the plugin.
- Inline.HandleMemoryRead: trusts the engine to return at most `size` bytes. The number of bytes printed is the number the engine returns.
- Router.HandleRequest: the method and the body do not influence the answer. No endpoint reads them.
- Query.UrlDecode: its own contract is only a length bound. Its meaning is stated by `UrlDecodeEncode`, `UrlDecodePlain` and the `%`-literal lemmas.
- The cut at the first NUL of the strings handed to the debugger through `c_str()`: the command of `/cmd` (src/MCPx64dbg.cpp:224), the patterns (include/mcp_handlers_pattern.h:24, 45-46 and 72), the label and comment texts and label names (include/mcp_handlers_annotation.h:63, 111 and 160), expressions, labels, module and API names (include/mcp_handlers_misc.h:22, 39 and 56), and instructions (include/mcp_handlers_assembler.h:23 and 42). The model passes the whole decoded value, so a value holding `%00` reaches the engine uncut in the model.
- Http.Serialize: `Content-Length` counts the body's characters. The source counts bytes, so the two agree only when every body character is a single byte.
- Assembler.AsmSizeOf: assumes the assembler reports a size between 0 and the 16 bytes of its buffer. The source keeps an `int size`, prints it as it is and loops `i < size` (include/mcp_handlers_assembler.h:40-51). A negative size, which prints a negative number and no bytes, is not modelled; nor is a larger one, which would read past the buffer.
- Inline.HandleDisasm: assumes `DbgDisasmAt` reports a non-negative instruction size. The source prints the `int` field `instr_size` as it is (src/MCPx64dbg.cpp:402-404).
- Pattern.SearchFromOrdered: assumes the engine's `FindMem` returns 0 or an address inside the range it was given. This is the debugger's contract, not the plugin's.
