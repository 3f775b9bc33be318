# Hedera playground backend: a verified model of its decision logic

This project models, in Dafny, the parts of the Hedera developer playground backend
that decide, parse and keep track of things. Collaborators the code only calls are
parameters (oracles): the runtime registry, the Job engine, semver, the file system,
PASETO verification, KMS, JSON parsing, the language models and the network.

- **Code-execution service** (`ExecuteApi`, `Packages`, `PlaygroundAuth`).
  - `ExecuteApi`: the `/execute` request check `get_job` and the handler that primes, executes and cleans up a Job.
  - `Packages`: the package index parser, install paths and the highest-satisfying-version choice.
  - `PlaygroundAuth`: the authentication middleware.
- **Gateway authentication agent** (`SpoeAuth`).
  - Configuration from the environment.
  - The verifier's key check, token cleaning and the account claim.
  - The Cookie header reader.
  - The HTTP `/check` endpoint and the HAProxy SPOE message handler.
- **Sandbox egress filter** (`NetworkFilter`): a byte-level classifier of outgoing Ethernet frames, on a little-endian host.
- **Assistant service.**
  - `HederaTools`: the documentation-search tool, with its SSE payload extraction, upstream error mapping and result shaping.
  - `MockAgent`, `ChatService` and `UiStream`: the mock replay of recorded replies as a UI message stream.
  - `ChatService` also models the chat service's system prompt, metadata messages and mode selection.
  - `OpenAiService`: the streaming chat with its history, context and send gate.
  - `CodeIntegration`: the code-integration agent's line numbering and usage accounting.
  - `ChatController`: the session table of the chat controller.
  - `UserAiKeys`: the one-key-per-user store of users' AI keys.

Shared modules:
- `Wrappers` defines `Option` and `Result`.
- `Strings` defines split, join, trim, padding and number rendering.
- `JsValues` defines JavaScript values with truthiness, `?.`, `??`, `===` and `String(...)`.

State that the source updates in place is a class:
- the Job engine and the HTTP response;
- the SPOE request's actions;
- a socket connection;
- the chat controller's session map;
- the key repository;
- the mock agent's and chat service's loaded recording.

Loops in the source are `while`/`for` loops proved against specification functions:
- `parseCookies`;
- the SSE line loop;
- the recording parsers;
- the metadata loop;
- the stream reader;
- session eviction;
- the allowlist search.

## Model

| member | source | states |
|---|---|---|
| ExecuteApi.CheckFields | app/playground-api/src/api/playground.js:25-46 | the checks on the body's own fields reject only for a null body, language, version, files or a file entry |
| ExecuteApi.CheckFiles | app/playground-api/src/api/playground.js:40-46 | no rejection iff every entry's content is a string; otherwise the first offending index, a TypeError iff that entry is null/undefined |
| ExecuteApi.FieldRejections | app/playground-api/src/api/playground.js:25-39 | each field rejection is reported exactly when its check fails and the earlier ones (body, language, version, files) pass |
| ExecuteApi.FileRejection | app/playground-api/src/api/playground.js:40-46 | a file rejection names the first entry whose content is not a string, after language and version passed |
| ExecuteApi.RuntimeUnknownRejection | app/playground-api/src/api/playground.js:48-56 | "language-version runtime is unknown" only after all field checks pass and the registry has no runtime |
| ExecuteApi.NoUtf8Rejection | app/playground-api/src/api/playground.js:58-65 | the utf8 rejection needs a resolved runtime whose language is not `file` and no file without encoding or with utf8 |
| ExecuteApi.CheckAgainstRuntime | app/playground-api/src/api/playground.js:58-94 | the runtime checks reject only with the utf8 rule or a constraint rejection |
| ExecuteApi.VerdictAccepts | app/playground-api/src/api/playground.js:72-92 | one override passes iff it is falsy, or a number within [0, limit] when the limit is positive, or any number when it is not |
| ExecuteApi.CheckOverride | app/playground-api/src/api/playground.js:72-92 | a falsy override passes; a non-number is "must be a number"; with a positive ceiling a larger number "cannot exceed the configured limit" and a negative one "must be non-negative"; it passes exactly when OverrideAccepted holds |
| ExecuteApi.CheckConstraints | app/playground-api/src/api/playground.js:67-94 | the nested loops answer no rejection iff every pair's override is acceptable, and any rejection is one of the three constraint kinds |
| ExecuteApi.FirstRejection | app/playground-api/src/api/playground.js:67-94 | a rejection of the loops is the verdict on one pair, every pair before it accepted |
| ExecuteApi.CheckOrderCoversAll | app/playground-api/src/api/playground.js:67-68 | the order memory_limit, timeout, cpu_time × compile, run checks every one of the six overrides |
| ExecuteApi.ConstraintRejection | app/playground-api/src/api/playground.js:67-94 | a constraint rejection is one override's verdict with every earlier pair in check order acceptable |
| ExecuteApi.NegativeOverrideWithoutCeiling | app/playground-api/src/api/playground.js:80-82 | with a configured limit <= 0 a negative override is accepted and becomes the Job's limit |
| ExecuteApi.FalsyOverrideReachesJob | app/playground-api/src/api/playground.js:72-113 | a falsy override that is not null/undefined (such as 0) skips validation and still becomes the Job's limit |
| ExecuteApi.AcceptedOverridesWithinCeilings | app/playground-api/src/api/playground.js:72-92 | an accepted truthy override is a number, is the Job's limit, and lies in [0, limit] when the limit is positive |
| ExecuteApi.GetJobAcceptsExactlyAdmissible | app/playground-api/src/api/playground.js:24-116 | get_job succeeds iff the body meets every condition, stated without the order of checks |
| ExecuteApi.GetJobBuildsJob | app/playground-api/src/api/playground.js:96-115 | the Job has the resolved runtime and files, args defaulting to [], stdin to '', each limit the override unless nullish, else the runtime's |
| ExecuteApi.GetJob | app/playground-api/src/api/playground.js:24-116 | `get_job` as a function from the body and the registry to the Job or the first rejection; its contract is stated by GetJobAcceptsExactlyAdmissible (accepted iff Admissible), FieldRejections, FileRejection, RuntimeUnknownRejection, NoUtf8Rejection, ConstraintRejection and GetJobBuildsJob |
| ExecuteApi.BuildJob | app/playground-api/src/api/playground.js:96-115 | the Job of checked fields: the runtime, the files, `args ?? []`, `stdin ?? ''` and each limit `override ?? the runtime's limit for the same stage`; stated by GetJobBuildsJob |
| ExecuteApi.HandleExecute | app/playground-api/src/api/playground.js:119-147 | the handler's sends and engine calls are those of the handler as written |
| ExecuteApi.Respond | app/playground-api/src/api/playground.js:119-147 | after get_job: the 400 send for a rejection, else the try reply, a second 500 send on cleanup failure, and prime/execute/cleanup in that order |
| ExecuteApi.HandlerOutcomes | app/playground-api/src/api/playground.js:119-147 | a rejected body gets 400 and never reaches the engine; otherwise the try reply is sent first, cleanup is called exactly once and last, and a cleanup failure sends a second 500 |
| ExecuteApi.RunDefaultsToCompile | app/playground-api/src/api/playground.js:130-133 | a result without a run stage reports its compile stage as run; otherwise it is unchanged |
| ExecuteApi.CleanupFailureIsNotDelivered | app/playground-api/src/api/playground.js:135-145 | as written, a cleanup failure after a successful execution still delivers 200, and the 500 is a second send |
| ExecuteApi.HandleExecuteCleanupFirst | app/playground-api/src/api/playground.js:126-146 | the corrected handler awaits cleanup before its one send, with the same engine calls |
| ExecuteApi.RespondCleanupFirst | app/playground-api/src/api/playground.js:126-146 | after get_job, the corrected handler sends exactly one reply, the intended one |
| ExecuteApi.IntendedReplyStatus | app/playground-api/src/api/playground.js:139-145 | corrected: a valid request gets 200 iff prime, execute and cleanup all succeed, and 500 otherwise |
| Packages.LineFields | app/playground-api/src/package.js:37 | split(',', 4) keeps at most the first four comma-free pieces of the line |
| Packages.NonEmptyLines | app/playground-api/src/package.js:34 | the filter keeps exactly the non-empty lines |
| Packages.NonEmptyLinesAppend | app/playground-api/src/package.js:34 | the filter keeps order and distributes over concatenation |
| Packages.ParseLines | app/playground-api/src/package.js:35-45 | one Package per line, the i-th from the i-th line |
| Packages.ParseLine | app/playground-api/src/package.js:37-44 | the `Package` of one line: language, parsed version, author and build from the first four comma-separated fields, undefined where missing; stated by FieldsPastFourthDropped and MissingFieldsUndefined |
| Packages.GetPackageList | app/playground-api/src/package.js:31-46 | `get_package_list` on the index text: one package per non-empty line, in order; stated by NonEmptyLines, ParseLines and PackageListAppend |
| Packages.PackageListAppend | app/playground-api/src/package.js:31-46 | the index of two texts joined by a newline lists the first's packages, then the second's |
| Packages.FieldsPastFourthDropped | app/playground-api/src/package.js:37-44 | with four or more fields, language, version, checksum and download are the first four, and the rest is dropped |
| Packages.MissingFieldsUndefined | app/playground-api/src/package.js:37-44 | with fewer than four fields, the missing ones are undefined |
| Packages.InstallPath | app/playground-api/src/package.js:22-29 | the path is data_directory/packages/language/raw version, and it is defined iff language and version are |
| Packages.InstallPathDeterminesPackage | app/playground-api/src/package.js:22-29 | equal install paths mean equal language and raw version when neither has a slash |
| Packages.Installed | app/playground-api/src/package.js:16-20 | installed is the file-system probe's answer for the marker under the install path |
| Packages.Candidates | app/playground-api/src/package.js:51-56 | the candidates are exactly the listed packages of the language whose version satisfies the range |
| Packages.Best | app/playground-api/src/package.js:57-59 | the first element after the descending stable sort is not exceeded by any candidate and exceeds every earlier one |
| Packages.GetPackage | app/playground-api/src/package.js:48-60 | null iff no package matches; otherwise a matching package that no matching package exceeds |
| PlaygroundAuth.MakeKey | app/playground-api/src/auth.js:11-18 | no key exactly for a missing or empty hex text; otherwise the key of `Buffer.from(keyHex, "hex")`, or None (the constructor throws) exactly when the PASETO library rejects those bytes |
| PlaygroundAuth.BufferFromHexAppend | app/playground-api/src/auth.js:14 | an even run of hexadecimal digits decodes to half as many bytes, and what follows it decodes on its own |
| PlaygroundAuth.KeySuffixIgnored | app/playground-api/src/auth.js:14-15 | a trailing odd digit, or junk from a non-hex character on, after a well-formed key text leaves the configured key unchanged |
| PlaygroundAuth.Decide | app/playground-api/src/auth.js:32-63 | a request goes on iff it is GET /health, no key is set, the admin key matches or a verified Bearer token is carried; otherwise 401 "Invalid or expired token" |
| PlaygroundAuth.EmptyApiKeyNeverMatches | app/playground-api/src/auth.js:39-41 | a missing or empty x-api-key never matches, even an empty admin key |
| PlaygroundAuth.BearerTokenExtracted | app/playground-api/src/auth.js:43-47 | "Bearer t", with t free of spaces, hands exactly t to verification |
| PlaygroundAuth.LowerCaseSchemeRejected | app/playground-api/src/auth.js:45-46 | the scheme test is case-sensitive |
| PlaygroundAuth.VerifiedBearerPasses | app/playground-api/src/auth.js:43-57 | a Bearer token that verifies lets any request through |
| SpoeAuth.HexDecode | app/spoe-auth/main.go:56 | a decoded key has half as many bytes as the hex text has digits |
| SpoeAuth.HexEncode | app/spoe-auth/main.go:56 | encoding gives two digits per byte |
| SpoeAuth.HexRoundTrip | app/spoe-auth/main.go:56 | hex decoding inverts hex encoding |
| SpoeAuth.HexEncodeHasNoSpace | app/spoe-auth/main.go:56 | encoded key text has no white space, so trimming leaves it alone |
| SpoeAuth.NewVerifier | app/spoe-auth/main.go:55-74 | success iff the trimmed hex decodes to 32 bytes the library accepts; a bad hex or length is "invalid ed25519 public key hex"; a blank account field becomes accountId |
| SpoeAuth.NewVerifierAcceptsEncodedKey | app/spoe-auth/main.go:55-74 | the hex text of any accepted 32-byte key configures a verifier for exactly that key |
| SpoeAuth.CleanToken | app/spoe-auth/main.go:79-82 | the cleaned token has no white space at its ends |
| SpoeAuth.BearerPrefixStripped | app/spoe-auth/main.go:79-82 | any case of "bearer " with any padding is stripped, giving the bare token |
| SpoeAuth.AccountOf | app/spoe-auth/main.go:106-120 | the account is non-empty and trimmed; it fails with "missing accountId/sub" iff neither the field nor sub is usable |
| SpoeAuth.AccountFallback | app/spoe-auth/main.go:106-116 | the configured field is preferred, sub is used only when that field is missing or blank, and the id is trimmed |
| SpoeAuth.TokenAccount | app/spoe-auth/main.go:77-121 | the account of a cleaned token: the parser's error, or AccountOf on its claims; VerifyToken is proved equal to it |
| SpoeAuth.VerifyToken | app/spoe-auth/main.go:77-121 | the method's account or error is the token's account outcome, with "" on error |
| SpoeAuth.ParsePiece | app/spoe-auth/main.go:372-383 | the loop body's pair is that of the trimmed piece split at its first = |
| SpoeAuth.ParseCookies | app/spoe-auth/main.go:365-387 | the loop's map is the ;-separated pieces' pairs assigned in order |
| SpoeAuth.ParsePieces | app/spoe-auth/main.go:371-384 | the loop over the pieces leaves each piece's pair assigned in order, a later name overwriting an earlier one |
| SpoeAuth.CookiePresent | app/spoe-auth/main.go:365-387 | a cookie is present iff some piece names it |
| SpoeAuth.CookieLastWins | app/spoe-auth/main.go:371-384 | a later piece of the same name overwrites an earlier one |
| SpoeAuth.SingleCookie | app/spoe-auth/main.go:365-387 | one name=value cookie reads back as itself, and the value may hold = |
| SpoeAuth.CheckHandlerCharacterised | app/spoe-auth/main.go:140-176 | /check answers 200 iff the admin key is set and matches, or the Authorization token, else "Bearer " + session cookie, verifies; otherwise 401 |
| SpoeAuth.CheckHandler | app/spoe-auth/main.go:140-176 | the `/check` reply: 200 bypass for the admin key, else the Authorization header or the `session` cookie as a Bearer token, 401 when it is absent or does not verify; stated by CheckHandlerCharacterised |
| SpoeAuth.WithDefaults | app/spoe-auth/main.go:197-205 | empty message, auth and api-key argument names get their defaults, and set ones are kept |
| SpoeAuth.ReadToken | app/spoe-auth/main.go:254-280 | the handler's token is the Bearer auth argument, else the session cookie |
| SpoeAuth.TokenSourcePriority | app/spoe-auth/main.go:254-280 | a "Bearer " auth argument wins over the cookie, and any other spelling falls back to the cookie |
| SpoeAuth.HandleSpoe | app/spoe-auth/main.go:207-303 | the handler appends exactly the actions of the specification, in order |
| SpoeAuth.SpoeActions | app/spoe-auth/main.go:207-303 | the variables the SPOE handler sets, in order, for a missing message, the admin bypass, a missing token, a rejected token and an accepted one; HandleSpoe is proved to set exactly these, and SpoeOutcome states them per case |
| SpoeAuth.SpoeOutcome | app/spoe-auth/main.go:207-303 | auth_ok comes first and reason last; auth_ok is true iff the message is present and it is a bypass or the token verifies, and only a verified token sets user_id to its account |
| SpoeAuth.Env | app/spoe-auth/main.go:389-395 | the trimmed value, or the default when that is blank |
| SpoeAuth.EnvNotBlank | app/spoe-auth/main.go:389-395 | with a trimmed non-blank default the result is non-blank and trimmed |
| SpoeAuth.StartupFailures | app/spoe-auth/main.go:324-342 | main fails with "PASETO_V4_PUBLIC_KEY_HEX is required" or "verifier init error: ...", and otherwise starts a server with the configured verifier |
| SpoeAuth.Startup | app/spoe-auth/main.go:324-342 | `main`: the fatal error for a blank key or a failed verifier, else the server Launch picks; stated by StartupFailures |
| SpoeAuth.ConfiguredVerifierSettings | app/spoe-auth/main.go:330-339 | main's verifier is for the configured key, with USER_FIELD, else userId, as account claim |
| SpoeAuth.LaunchServer | app/spoe-auth/main.go:346-361 | SPOE iff MODE is spoe in any case, on LISTEN_ADDR or the mode's default port, with the admin key as set |
| SpoeAuth.Launch | app/spoe-auth/main.go:346-361 | the server of the `MODE` switch: SPOE on `LISTEN_ADDR` or ":9000" with the message settings, else HTTP on `LISTEN_ADDR` or ":8080"; stated by LaunchServer |
| NetworkFilter.RawAddress | app/playground-api/ebpf/network_filter.c:93-97 | the raw daddr of a dotted quad is the little-endian load of its wire bytes |
| NetworkFilter.FilterEgress | app/playground-api/ebpf/network_filter.c:58-101 | the method's result is the verdict of the checks and the allowlist search |
| NetworkFilter.Verdict | app/playground-api/ebpf/network_filter.c:58-101 | the verdict of `filter_egress` on a frame and an allowlist; FilterEgress is proved equal to it, and UninspectedAllowed, InspectedFrame and ProtocolIgnored characterise it |
| NetworkFilter.EtherTypeOnWire | app/playground-api/ebpf/network_filter.c:70-71 | the IPv4 test holds iff the ethertype bytes are 0x08 0x00 on the wire |
| NetworkFilter.LocalhostOnWire | app/playground-api/ebpf/network_filter.c:79-83 | the localhost test holds iff the first destination byte is 127 |
| NetworkFilter.UninspectedAllowed | app/playground-api/ebpf/network_filter.c:58-101 | the result is 0 or 1; short frames, non-IPv4 frames and truncated IPv4 headers are allowed |
| NetworkFilter.InspectedFrame | app/playground-api/ebpf/network_filter.c:79-100 | a complete IPv4 frame is dropped iff it is outside 127.0.0.0/8 and its raw daddr is not listed |
| NetworkFilter.ProtocolIgnored | app/playground-api/ebpf/network_filter.c:87-90 | the protocol byte does not change the verdict |
| NetworkFilter.AsWrittenEntries | app/playground-api/ebpf/network_filter.c:37-53 | as written, only six of the fifteen entries denote the address commented beside them |
| NetworkFilter.FirstNodeDropped | app/playground-api/ebpf/network_filter.c:37-38 | as written, a frame to 34.94.106.61, the first commented node, is dropped |
| NetworkFilter.IntendedIpsMatchComments | app/playground-api/ebpf/network_filter.c:37-53 | corrected: each entry is the raw daddr of its commented address |
| NetworkFilter.IntendedNodesAllowed | app/playground-api/ebpf/network_filter.c:37-53 | corrected: a frame to any commented node is allowed |
| HederaTools.Contributions | app/ai-assistant/src/domain/agents/tools/HederaTools.ts:44-56 | one contribution per line, in order |
| HederaTools.ExtractData | app/ai-assistant/src/domain/agents/tools/HederaTools.ts:41-56 | the loop's jsonData is the payload of the stream's lines |
| HederaTools.AccumulateData | app/ai-assistant/src/domain/agents/tools/HederaTools.ts:43-56 | the loop over the lines accumulates exactly their payload |
| HederaTools.LineRules | app/ai-assistant/src/domain/agents/tools/HederaTools.ts:46-55 | metadata lines add nothing; "data: " lines add what follows; other lines are added whole iff not blank and not starting with event or id |
| HederaTools.IdentifierDropped | app/ai-assistant/src/domain/agents/tools/HederaTools.ts:52 | a line such as "identifier" is dropped |
| HederaTools.SseDataAppend | app/ai-assistant/src/domain/agents/tools/HederaTools.ts:44-56 | contributions are concatenated in order with no separator |
| HederaTools.StreamPayloadAppend | app/ai-assistant/src/domain/agents/tools/HederaTools.ts:41-56 | two streams joined at a line break give the first's payload, then the second's |
| HederaTools.BlankPayloadParsesWholeStream | app/ai-assistant/src/domain/agents/tools/HederaTools.ts:58-68 | a blank payload parses the whole stream, or fails with a 502 |
| HederaTools.ExtractJson | app/ai-assistant/src/domain/agents/tools/HederaTools.ts:40-83 | `extractJSONFromSSE`: the payload parsed, the whole stream when the payload is blank, the brace span when the payload does not parse; stated by BlankPayloadParsesWholeStream and BraceSpan |
| HederaTools.BraceSpan | app/ai-assistant/src/domain/agents/tools/HederaTools.ts:72-75 | the fallback match starts with { and ends with } |
| HederaTools.LastIndexOf | app/ai-assistant/src/domain/agents/tools/HederaTools.ts:72-75 | the last occurrence of a character, or none iff absent |
| HederaTools.UpstreamStatus | app/ai-assistant/src/domain/agents/tools/HederaTools.ts:119 | 503 iff the upstream status is >= 500, else 502 |
| HederaTools.SearchFailures | app/ai-assistant/src/domain/agents/tools/HederaTools.ts:111-182 | every search failure is a service error; a non-OK reply gives the status message with 503 or 502; a fetch failure gives "Error calling Hedera MCP" |
| HederaTools.SearchMcp | app/ai-assistant/src/domain/agents/tools/HederaTools.ts:90-183 | `searchHederaMCP` on the server's reply: the payload or a service error; stated by SearchFailures |
| HederaTools.TextItems | app/ai-assistant/src/domain/agents/tools/HederaTools.ts:217 | the filter keeps exactly the items of type text with truthy text |
| HederaTools.NoTextItemsNoContent | app/ai-assistant/src/domain/agents/tools/HederaTools.ts:209-247 | without text items the formatted content is empty, and formatting cannot fail |
| HederaTools.FormattedContent | app/ai-assistant/src/domain/agents/tools/HederaTools.ts:209-247 | the text items of `result.content` formatted and joined by a rule, else those of `content`, else empty; a primary text item whose text is not a string fails with 502; stated by ToolOutcome, NonStringTextFails and NoTextItemsNoContent |
| HederaTools.Shape | app/ai-assistant/src/domain/agents/tools/HederaTools.ts:257-261 | foundResults iff the content is non-empty, which otherwise falls back to "No relevant documentation found." |
| HederaTools.QueryCheckedFirst | app/ai-assistant/src/domain/agents/tools/HederaTools.ts:197-200 | a missing or empty query is a ValidationError whatever the server would answer |
| HederaTools.ToolOutcome | app/ai-assistant/src/domain/agents/tools/HederaTools.ts:202-286 | the tool fails iff the search fails, with its service error, or a primary text item's text is not a string, with 502 "Error executing SearchHedera tool"; otherwise it shapes the formatted content |
| HederaTools.NonStringTextFails | app/ai-assistant/src/domain/agents/tools/HederaTools.ts:216-221 | a primary text item with truthy non-string text (as `{type:"text",text:5}`) makes the tool fail with 502 "Error executing SearchHedera tool" |
| HederaTools.ExecuteTool | app/ai-assistant/src/domain/agents/tools/HederaTools.ts:195-287 | `execute`: the query check, the search and the shaping; stated by QueryCheckedFirst and ToolOutcome |
| UiStream.Chunks | app/ai-assistant/src/domain/agents/implementations/MockAgent.ts:73-85 | ceil(n/5) chunks, each of 1 to 5 characters |
| UiStream.ChunkAt | app/ai-assistant/src/domain/agents/implementations/MockAgent.ts:74-76 | the k-th chunk is the slice starting at 5k |
| UiStream.ChunksRoundTrip | app/ai-assistant/src/domain/agents/implementations/MockAgent.ts:73-85 | the chunks glue back to the text, and all but the last have 5 characters |
| UiStream.DeltaEvents | app/ai-assistant/src/domain/agents/implementations/MockAgent.ts:75-84 | one text-delta event per chunk, in order |
| UiStream.ToolEvents | app/ai-assistant/src/domain/agents/implementations/MockAgent.ts:94-113 | three events per tool call, in call order |
| UiStream.ToolEventsSnoc | app/ai-assistant/src/domain/agents/implementations/MockAgent.ts:94-113 | one more call appends its three events |
| UiStream.EmitMockEvents | app/ai-assistant/src/domain/agents/implementations/MockAgent.ts:55-144 | the generator emits exactly the event sequence of the specification |
| UiStream.MockEventSeq | app/ai-assistant/src/domain/agents/implementations/MockAgent.ts:62-119 | the mock stream's events for a text and its calls; EmitMockEvents is proved equal to it, and MockEventLayout and StreamCarriesText state its layout and text |
| UiStream.MockEventLayout | app/ai-assistant/src/domain/agents/implementations/MockAgent.ts:62-119 | start, start-step, text-start, the deltas, text-end, three events per call, finish-step, finish |
| UiStream.StreamCarriesText | app/ai-assistant/src/domain/agents/implementations/MockAgent.ts:73-85 | gluing the deltas of the stream gives back the reply text |
| UiStream.DeltaTextsAppend | app/ai-assistant/src/domain/agents/implementations/MockAgent.ts:73-85 | the delta texts of joined event lists are joined |
| UiStream.DeltaTextsOfDeltas | app/ai-assistant/src/domain/agents/implementations/MockAgent.ts:75-84 | the delta events carry their chunks |
| UiStream.NoDeltas | app/ai-assistant/src/domain/agents/implementations/MockAgent.ts:62-119 | events without deltas carry no text |
| UiStream.NoDeltasInToolEvents | app/ai-assistant/src/domain/agents/implementations/MockAgent.ts:94-113 | tool events carry no text |
| UiStream.InputEvents | app/ai-assistant/src/domain/agents/implementations/MockAgent.ts:36-37 | the tool-input events of the recording, in order |
| UiStream.InputEventsAppend | app/ai-assistant/src/domain/agents/implementations/MockAgent.ts:32-49 | the tool-input events of joined recordings are joined |
| UiStream.RecordedTextAppend | app/ai-assistant/src/domain/agents/implementations/MockAgent.ts:33-35 | the text of joined recordings is the first's text, then the second's |
| UiStream.RecordedTextSnoc | app/ai-assistant/src/domain/agents/implementations/MockAgent.ts:33-35 | one more event appends its delta, if any, to the text |
| MockAgent.FindOutput | app/ai-assistant/src/domain/agents/implementations/MockAgent.ts:38-40 | the first output event with the same id, or none iff there is none |
| MockAgent.CallsOf | app/ai-assistant/src/domain/agents/implementations/MockAgent.ts:36-49 | one call per input event, in order |
| MockAgent.ParseSpec | app/ai-assistant/src/domain/agents/implementations/MockAgent.ts:24-52 | the recording's text and calls, or None where parsing throws; ParseMockResponseData is proved equal to it, and NoRecordingNothingToReplay, CallsFollowInputs and ReplayedTextInOrder state its properties |
| MockAgent.MockAgent.constructor | app/ai-assistant/src/domain/agents/implementations/MockAgent.ts:9-22 | the recording is the parsed file, or null when it is missing or does not parse |
| MockAgent.MockAgent.ParseMockResponseData | app/ai-assistant/src/domain/agents/implementations/MockAgent.ts:24-52 | the loop gives the specification's text and calls, or fails where the source throws |
| MockAgent.ReadEvent | app/ai-assistant/src/domain/agents/implementations/MockAgent.ts:33-48 | one event extends the text by its delta and the calls by its call |
| MockAgent.PrefixStep | app/ai-assistant/src/domain/agents/implementations/MockAgent.ts:32-49 | the loop's specifications advance by one event |
| MockAgent.MockAgent.StreamMockResponse | app/ai-assistant/src/domain/agents/implementations/MockAgent.ts:55-144 | the replayed stream is the event sequence of the parsed text and calls |
| MockAgent.NoRecordingNothingToReplay | app/ai-assistant/src/domain/agents/implementations/MockAgent.ts:25-27 | with no recording the text is empty and there are no calls |
| MockAgent.CallsFollowInputs | app/ai-assistant/src/domain/agents/implementations/MockAgent.ts:36-49 | one call per tool-input event, with its id, name and input, and the output of the first matching output event, else the input |
| MockAgent.ObjectIdsNeverMatch | app/ai-assistant/src/domain/agents/implementations/MockAgent.ts:38-40 | an object or array id never finds its output, since === compares by identity |
| MockAgent.ReplayedTextInOrder | app/ai-assistant/src/domain/agents/implementations/MockAgent.ts:33-35 | the replayed text is the recorded deltas in order |
| ChatService.Instructions | app/ai-assistant/src/domain/services/ChatService.ts:39-56 | the default when the path is unset, blank or unreadable; otherwise the file's text |
| ChatService.BuildContent | app/ai-assistant/src/domain/services/ChatService.ts:62-65 | the content built piece by piece is the metadata content |
| ChatService.GetMetadataMessages | app/ai-assistant/src/domain/services/ChatService.ts:58-71 | the loop gives the metadata messages of the user messages |
| ChatService.MetadataMessages | app/ai-assistant/src/domain/services/ChatService.ts:58-71 | one metadata message per user message with non-empty content, in order; GetMetadataMessages is proved equal to it, and MetadataMessagesAppend and MetadataMessagesBounded state its properties |
| ChatService.ContentWhenSomeFieldSet | app/ai-assistant/src/domain/services/ChatService.ts:62-68 | content is non-empty iff some field is truthy; the language comes first and the code last |
| ChatService.MetadataMessagesAppend | app/ai-assistant/src/domain/services/ChatService.ts:58-71 | order is kept: joined inputs give joined messages |
| ChatService.MetadataMessagesBounded | app/ai-assistant/src/domain/services/ChatService.ts:58-71 | at most one message per input, each a user message with content |
| ChatService.InputsOf | app/ai-assistant/src/domain/services/ChatService.ts:103-108 | one tool input per tool-input event, in order |
| ChatService.Replayed | app/ai-assistant/src/domain/services/ChatService.ts:154-173 | each replayed call's output is its own input |
| ChatService.ParseSpec | app/ai-assistant/src/domain/services/ChatService.ts:91-113 | the recording's text and tool inputs, or None where parsing throws; ParseMockResponseData is proved equal to it |
| ChatService.ChatService.constructor | app/ai-assistant/src/domain/services/ChatService.ts:29-84 | mock mode iff ENABLE_MOCK_MODE is "true"; the recording is loaded only then |
| ChatService.ChatService.ParseMockResponseData | app/ai-assistant/src/domain/services/ChatService.ts:91-113 | the loop gives the specification's text and tool inputs, or fails where the source throws |
| ChatService.ReadEvent | app/ai-assistant/src/domain/services/ChatService.ts:100-110 | one event extends the text by its delta and the inputs by its input |
| ChatService.PrefixStep | app/ai-assistant/src/domain/services/ChatService.ts:96-111 | the loop's specifications advance by one event |
| ChatService.ChatService.CreateMockStreamResponse | app/ai-assistant/src/domain/services/ChatService.ts:115-204 | the mock stream is the event sequence of the text with every call's output equal to its input |
| ChatService.MockOutputsEchoInputs | app/ai-assistant/src/domain/services/ChatService.ts:168-172 | each tool-output event carries its call's input, and the deltas glue back to the text |
| ChatService.ChatService.StreamChat | app/ai-assistant/src/domain/services/ChatService.ts:206-234 | the mock stream iff mock mode is on and a recording is loaded; otherwise the model stream over the metadata messages, then the converted ones |
| OpenAiService.OpenAiService.constructor | app/ai-assistant/src/domain/services/OpenAIService.ts:5-42 | the model is MODEL_OPENAI, or gpt-4o when that is unset or empty; the prompt is loaded as by the chat service |
| OpenAiService.SendResponse | app/ai-assistant/src/domain/services/OpenAIService.ts:44-60 | the connection after a send is that of the send gate |
| OpenAiService.SendGate | app/ai-assistant/src/domain/services/OpenAIService.ts:48-59 | nothing goes to a dead or non-open connection; a failed send kills it and nothing follows |
| OpenAiService.Rendered | app/ai-assistant/src/domain/services/OpenAIService.ts:84-90 | one rendered line per turn, in order |
| OpenAiService.ContextOf | app/ai-assistant/src/domain/services/OpenAIService.ts:84-91 | the rendering loop gives the full context |
| OpenAiService.ContextOfAppended | app/ai-assistant/src/domain/services/OpenAIService.ts:84-91 | one more turn adds a blank line and "Developer: " or "Assistant: " with its content |
| OpenAiService.Before | app/ai-assistant/src/domain/services/OpenAIService.ts:107-134 | the events before the first completion or error |
| OpenAiService.Deltas | app/ai-assistant/src/domain/services/OpenAIService.ts:115-126 | only non-empty deltas are kept |
| OpenAiService.ReadStream | app/ai-assistant/src/domain/services/OpenAIService.ts:107-134 | the loop's text, error and connection are those of the specification |
| OpenAiService.Consume | app/ai-assistant/src/domain/services/OpenAIService.ts:107-134 | the stream loop: deltas are sent and accumulated while the link lives, a completion stops it, an error event stops it with "Responses API error: ..."; ReadStream is proved equal to it, and ConsumeSteady and ConsumePrefix characterise it |
| OpenAiService.ConsumeSteady | app/ai-assistant/src/domain/services/OpenAIService.ts:107-134 | over a live connection the text is every non-empty delta before completion or error, each relayed when open, and the call throws iff the terminal event is an error |
| OpenAiService.SteadyText | app/ai-assistant/src/domain/services/OpenAIService.ts:107-123 | over a live connection the text is every non-empty delta before the first completion or error |
| OpenAiService.SteadyError | app/ai-assistant/src/domain/services/OpenAIService.ts:124-134 | over a live connection the call throws exactly when the first terminal event is an error, with its message |
| OpenAiService.SteadyLink | app/ai-assistant/src/domain/services/OpenAIService.ts:107-123 | over a live connection every counted delta is sent when open and the connection stays alive |
| OpenAiService.ConsumePrefix | app/ai-assistant/src/domain/services/OpenAIService.ts:107-134 | whatever the connection does, the text is the deltas of a prefix of the stream |
| OpenAiService.OpenAiService.StreamChat | app/ai-assistant/src/domain/services/OpenAIService.ts:63-167 | the history and connection after the call are those of the specification |
| OpenAiService.StreamChatSpec | app/ai-assistant/src/domain/services/OpenAIService.ts:63-167 | `streamChat` on values: the user turn, the start event, the model call, the stream and the assistant turn or the error response; the StreamChat method is proved to produce it, and UserTurnFirst, ModelSeesWholeHistory, AssistantTurnOnlyWithText, ErrorEventAborts and CleanStreamRecorded state it |
| OpenAiService.UserTurnFirst | app/ai-assistant/src/domain/services/OpenAIService.ts:71-74 | the user's turn is appended first, and at most the assistant's turn follows it |
| OpenAiService.ModelSeesWholeHistory | app/ai-assistant/src/domain/services/OpenAIService.ts:84-91 | the model reads the whole history with the new user turn last |
| OpenAiService.AssistantTurnOnlyWithText | app/ai-assistant/src/domain/services/OpenAIService.ts:137-142 | an assistant turn holding the text is appended iff the stream was read without error and gave text |
| OpenAiService.ErrorEventAborts | app/ai-assistant/src/domain/services/OpenAIService.ts:129-166 | an error event leaves only the user's turn, and the client gets start, deltas, then the error |
| OpenAiService.CleanStreamRecorded | app/ai-assistant/src/domain/services/OpenAIService.ts:77-153 | a clean stream is relayed in full, its text becomes the assistant's turn, and complete is sent |
| CodeIntegration.NumberedLines | app/ai-assistant/src/domain/agents/implementations/CodeIntegrationAgent.ts:29-32 | one numbered line per line, the k-th numbered k+1 |
| CodeIntegration.NumberedLineParts | app/ai-assistant/src/domain/agents/implementations/CodeIntegrationAgent.ts:31 | a line's number padded with spaces to 3 columns, then "| ", then the line |
| CodeIntegration.NoBreakInNumberedLine | app/ai-assistant/src/domain/agents/implementations/CodeIntegrationAgent.ts:31 | numbering adds no line break |
| CodeIntegration.NumberedCodeLines | app/ai-assistant/src/domain/agents/implementations/CodeIntegrationAgent.ts:29-32 | the numbered code has exactly the code's lines, in order, each numbered |
| CodeIntegration.NumberedCode | app/ai-assistant/src/domain/agents/implementations/CodeIntegrationAgent.ts:29-32 | the numbered code; stated by NumberedCodeLines, NumberedLineParts and NoBreakInNumberedLine |
| CodeIntegration.NothingToIntegrate | app/ai-assistant/src/domain/agents/implementations/CodeIntegrationAgent.ts:25-27 | empty code or no changes gives [] whatever the model would answer |
| CodeIntegration.UsageChargedToSystemKeyOnly | app/ai-assistant/src/domain/agents/implementations/CodeIntegrationAgent.ts:45-65 | counters move iff the system key was used and the call succeeded, by the reported usage |
| CodeIntegration.ChangesNeverFalsy | app/ai-assistant/src/domain/agents/implementations/CodeIntegrationAgent.ts:67-75 | a missing appliedChanges or a failure gives [], so the result is never falsy |
| CodeIntegration.GenerateCodeChanges | app/ai-assistant/src/domain/agents/implementations/CodeIntegrationAgent.ts:20-76 | `generateCodeChanges`: the applied changes and the counter increments; stated by NothingToIntegrate, UsageChargedToSystemKeyOnly and ChangesNeverFalsy |
| ChatController.ChatControllerImpl.GetConversationHistory | app/ai-assistant/src/application/controllers/impl/ChatControllerImpl.ts:34-49 | 404 "Conversation not found" iff the id is unknown; otherwise the session's id, history and times |
| ChatController.ChatControllerImpl.CleanupOldSessions | app/ai-assistant/src/application/controllers/impl/ChatControllerImpl.ts:56-64 | the loop leaves exactly the sessions active at or after the cutoff |
| ChatController.Kept | app/ai-assistant/src/application/controllers/impl/ChatControllerImpl.ts:56-64 | the sessions active at or after the cutoff; CleanupOldSessions leaves exactly these, and EvictsExactlyTheIdle and LongerAgeKeepsMore state its properties |
| ChatController.Expired | app/ai-assistant/src/application/controllers/impl/ChatControllerImpl.ts:56-64 | the ids of the sessions idle before the cutoff, the ones the loop deletes; EvictsExactlyTheIdle states that they are exactly the evicted ones |
| ChatController.EvictsExactlyTheIdle | app/ai-assistant/src/application/controllers/impl/ChatControllerImpl.ts:56-64 | the kept sessions are exactly those not expired, unchanged; eviction is idempotent |
| ChatController.CountAfterCleanup | app/ai-assistant/src/application/controllers/impl/ChatControllerImpl.ts:56-68 | the count drops by the number of expired sessions |
| ChatController.LongerAgeKeepsMore | app/ai-assistant/src/application/controllers/impl/ChatControllerImpl.ts:56-57 | a longer maximum age keeps every session a shorter one keeps |
| ChatController.DefaultAgeIsOneDay | app/ai-assistant/src/application/controllers/impl/ChatControllerImpl.ts:56-57 | the default cutoff is 86 400 000 ms before now |
| ChatController.ChatControllerImpl.ActiveSessionsCount | app/ai-assistant/src/application/controllers/impl/ChatControllerImpl.ts:66-68 | the number of stored sessions |
| UserAiKeys.ValidateAiKey | app/ai-assistant/src/domain/services/UserAIKeyService.ts:137-166 | valid in development or local mode; otherwise valid iff the probe succeeds, errors being INVALID_API_KEY validation errors |
| UserAiKeys.ValidationMessages | app/ai-assistant/src/domain/services/UserAIKeyService.ts:150-165 | "Invalid OpenAI API key" iff the probe failed with 401; otherwise "Unable to validate OpenAI API key" |
| UserAiKeys.UserAiKeyService.StoreKey | app/ai-assistant/src/domain/services/UserAIKeyService.ts:35-65 | the answer and the repository are those of the store specification |
| UserAiKeys.StoreOutcomes | app/ai-assistant/src/domain/services/UserAIKeyService.ts:35-65 | an invalid key or a second key changes nothing; success iff valid and absent, adding only that user's record and keeping one key per user |
| UserAiKeys.StoreSpec | app/ai-assistant/src/domain/services/UserAIKeyService.ts:35-65 | `storeKey` on values: the validation error, the conflict, or the new record and the repository with it; StoreKey is proved equal to it, and StoreOutcomes states it per case |
| UserAiKeys.StoreThenRetrieve | app/ai-assistant/src/domain/services/UserAIKeyService.ts:51-90 | a stored key retrieves as itself, with the user and creation time |
| UserAiKeys.UserAiKeyService.RetrieveKey | app/ai-assistant/src/domain/services/UserAIKeyService.ts:72-90 | NotFound iff absent; otherwise the decrypted ciphertext with the stored user and time |
| UserAiKeys.RetrieveSpec | app/ai-assistant/src/domain/services/UserAIKeyService.ts:72-90 | `retrieveKey` on values: NotFound, or the decrypted key of the user's record; RetrieveKey reads the service's repository through it, and StoreThenRetrieve and DeleteFreesTheSlot relate it to storing and deleting |
| UserAiKeys.UserAiKeyService.DeleteKey | app/ai-assistant/src/domain/services/UserAIKeyService.ts:97-107 | true iff there was a key, and that user's record is removed |
| UserAiKeys.DeleteFreesTheSlot | app/ai-assistant/src/domain/services/UserAIKeyService.ts:97-107 | after a delete nothing is retrieved and a new key can be stored |
| UserAiKeys.UserAiKeyService.GetKeyInfo | app/ai-assistant/src/domain/services/UserAIKeyService.ts:114-120 | NotFound iff absent; otherwise the stored record |
| UserAiKeys.UserAiKeyService.HasKey | app/ai-assistant/src/domain/services/UserAIKeyService.ts:127-129 | true iff getKeyInfo would succeed |

## Left out

- Collaborators are parameters, not models:
  - the runtime registry and the Job engine (runtime.js and job.js are not part of this model);
  - semver parsing and range satisfaction;
  - the file-system probe;
  - PASETO v4 verification, with its expiry, audience and issuer rules and the clock;
  - the library's key acceptance;
  - KMS encryption;
  - `JSON.parse` and `JSON.stringify`;
  - `fetch`;
  - the language-model calls;
  - the per-item regex formatting of a search result's string text (a parameter of the tool);
  - the key repository's SQL and the Redis counters.
- I/O and transport are not modelled:
  - Express, Fastify and Socket.IO routing;
  - HAProxy SPOE serving and HTTP listening;
  - `ReadableStream`/`Response` encoding of UI events as `data:` lines;
  - the artificial streaming delays.
- Concurrency is not modelled: simultaneous requests and sockets disconnecting while a call runs.
- JavaScript numbers are integers. Floating point, `NaN` and `Infinity` overrides are not modelled.
- Text operations are ASCII-only:
  - white space is the ASCII set;
  - case folding is ASCII-only;
  - there is no Unicode normalisation.
- `path.join` normalisation of `.` and `..` in install paths is not modelled: the path is the four parts joined by `/`.
- PlaygroundAuth.Decide: the 500 "Internal Server Error" answer for an exception inside the middleware is not modelled, because every step of the chain is a total function here.
- SpoeAuth.NewVerifier: when the PASETO library rejects the key bytes, the error is "public key parse" without the library's own message, which `main.go:61` appends after ": ".
- PlaygroundAuth.MakeKey: which byte strings `paseto.V4.bytesToKeyObject` accepts is a parameter; the library's error is not modelled, only that the constructor throws.
- The debug logging of every module is left out.
- `searchHederaTool`'s logging is left out.
- OpenAiService.OpenAiService.StreamChat: an exception thrown by the stream itself midway through `for await` is not modelled. Only the model call failing and error events end the call early.
- CodeIntegration: cache failures are not modelled. The counter increments are returned as a list rather than performed.
- ChatService: the `streamText` call, with its model handle and tools object, is a parameter. The reply is the system prompt and messages handed to it.
- UserAiKeys.UserAiKeyService.StoreKey: the branch for `validateAIKey` returning false (UserAIKeyService.ts:40-42) is not modelled. That function never returns false: it either resolves true or throws.
- ChatController: nothing in the controller ever inserts a session, so in the source every history lookup answers 404. The model keeps the table general.
- `sendResponse` logs and swallows its send failure: SendResponse marks the connection dead and nothing else.

The project documentation states that a configured limit <= 0 still requires a non-negative override. The code skips every further check in that case (playground.js:80-82). The model follows the code; see ExecuteApi.NegativeOverrideWithoutCeiling.

## Findings

| source | as written | input that shows it | evidently intended | confidence | as-written member | corrected member |
|---|---|---|---|---|---|---|
| app/playground-api/src/api/playground.js:126-146 | the try block sends 200 before the `finally` block runs cleanup, so a cleanup failure's `res.status(500).send()` comes after the response has finished: it has no body and its `end()` does nothing, and the client keeps the 200 | a valid request whose prime and execute succeed and whose cleanup throws: the client receives 200 | cleanup runs before the answer, and its failure answers 500 | high, not executed | ExecuteApi.CleanupFailureIsNotDelivered | ExecuteApi.IntendedReplyStatus |
| app/playground-api/ebpf/network_filter.c:37-53 | nine of the fifteen `hedera_ips` constants are not the raw little-endian `daddr` of the address commented beside them | an IPv4 frame to 34.94.106.61, the first commented node: it is dropped | every commented testnet node is reachable | high, not executed | NetworkFilter.FirstNodeDropped | NetworkFilter.IntendedNodesAllowed |
