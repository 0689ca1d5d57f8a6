# RPGMakerMCP core rules, modelled in Dafny

RPGMakerMCP connects an MCP client to the RPG Maker Unite editor. A Python
server receives MCP tool calls and forwards them over a WebSocket bridge to
the Unity editor. Inside the editor, C# handlers read and rewrite the
project's JSON data: common events, save-game state and asset folders. A
package hook also unpacks version updates when the package is imported.

This project models the deterministic rules inside those pieces and proves
properties about them:

- **Bridge connector.** The reconnect supervisor of the bridge connector
  (`BridgeConnector`) is a retry state machine with a quick exponential tier
  and a steady tier. The module also covers the heartbeat failure counter,
  the start/stop flags and the WebSocket URL builder.
- **Server constants and dispatch.** Token masking lives in `Constants` and
  `McpBridgeConstants`. Tool-name mapping and timeout arithmetic live in
  `RegisterTools`.
- **Editor path checks.** `McpBridgeConstants` holds the path-containment
  checks.
- **JSON utilities.**
  - `DataModelMapper` holds the dictionary merge, nested get/set and field
    extraction.
  - `MiniJson` converts Newtonsoft tokens into plain objects.
  - `Json` is the shared value universe for both.
- **Database editing.** `EditorDataService` covers duplicate naming, the
  initial-party repair on character deletion, and the item update/delete
  pattern.
- **Event editing.** `RPGMakerEventHandler` covers common-event, page and
  command editing over the three event files, plus copy, move and
  validation.
- **Save-game state.** `RPGMakerGameStateHandler` covers inventory add and
  remove, progress flags and teleport.
- **Assets.** `RPGMakerAssetsHandler` covers the category tables, listing,
  import/export/delete, validation counts, folder organisation and totals.
- **Package update.** `ExtractOnImport` covers the overwrite predicates,
  the unpack decision, manifest filtering, the version gate and the
  highest-version scan.

Conventions of the model:

- **Files and devices as state.** File-system contents are values: a folder
  is a `map<string, seq<string>>` from directory to file names, and an
  event store is a `map` from file stem to its JSON array. Where the source
  loads a file, edits it in place and saves it, the model uses a class
  whose field holds the loaded state. Its methods are proved against a
  specification function of the old state, for example
  `Applied(old(files), files, r, Spec(old(files), ...))`. The properties
  are then proved about those specification functions.
- **Times.** Times are integer milliseconds.
- **Versions.** A .NET `Version` is a sequence of naturals compared
  lexicographically.
- **C# integers.** C# `int` arithmetic wraps explicitly through
  `Json.Wrap32`.
- **Outside calls.** Clocks, GUID generation, `Path.GetFullPath`,
  Newtonsoft's `JObject.Merge` and the bridge's network round trip become
  parameters.

Shared helper modules: `Wrappers` (Option/Result), `Text` (strip, split,
decimal text, paths), `Seqs` (first-match search, filter, remove-at) and
`HandlerArgs` (payload accessors).

## Model

| member | source | states |
|---|---|---|
| BridgeConnector.NormalizeHost | Assets/RPGMakerMCP/MCPServer/src/bridge/bridge_connector.py:190-195 | The host is never empty; a missing or blank host becomes `127.0.0.1`; any host containing ':' ends up bracketed; otherwise the stripped host is kept, wrapped in brackets exactly when it holds ':' and is not already bracketed |
| BridgeConnector.NormalizePath | Assets/RPGMakerMCP/MCPServer/src/bridge/bridge_connector.py:196 | The path always starts with '/'; a path that already does is unchanged, otherwise '/' is prepended |
| BridgeConnector.BuildWsUrl | Assets/RPGMakerMCP/MCPServer/src/bridge/bridge_connector.py:190-197 | The URL is `ws://`, the normalised host, `:` and the port in decimal, then the normalised path, which starts with '/' |
| BridgeConnector.NormalizedHostEnds | Assets/RPGMakerMCP/MCPServer/src/bridge/bridge_connector.py:191 | A normalised host has no surrounding white space |
| BridgeConnector.NormalizeHostIdempotent | Assets/RPGMakerMCP/MCPServer/src/bridge/bridge_connector.py:190-195 | Normalising an already normalised host changes nothing |
| BridgeConnector.BuildWsUrlCanonical | Assets/RPGMakerMCP/MCPServer/src/bridge/bridge_connector.py:190-197 | Building the URL from already normalised parts gives the same URL, so the URL depends only on the normalised host and path |
| BridgeConnector.BlankHostIsLoopback | Assets/RPGMakerMCP/MCPServer/src/bridge/bridge_connector.py:191-193 | A missing or whitespace-only host yields exactly `ws://127.0.0.1:<port>/bridge` |
| BridgeConnector.Ipv6HostIsBracketed | Assets/RPGMakerMCP/MCPServer/src/bridge/bridge_connector.py:194-195 | An unbracketed host containing ':' is wrapped as `[host]` |
| BridgeConnector.AuthHeaders | Assets/RPGMakerMCP/MCPServer/src/bridge/bridge_connector.py:83-86 | Headers are sent iff a non-empty token is set, and then consist of exactly `Authorization: Bearer <token>` |
| BridgeConnector.Pow2 | Assets/RPGMakerMCP/MCPServer/src/bridge/bridge_connector.py:59-63 | The backoff multiplier is at least 1 |
| BridgeConnector.SteadyDelayMs | Assets/RPGMakerMCP/MCPServer/src/bridge/bridge_connector.py:64-74 | The steady delay is `max(1000, reconnect)`: at least both, and equal to one of them |
| BridgeConnector.AttemptCountIsFailureRun | Assets/RPGMakerMCP/MCPServer/src/bridge/bridge_connector.py:40-58 | After any run of outcomes, `attempt_count` equals the number of failed attempts since the last connection that closed normally |
| BridgeConnector.DelayAfterAttempt | Assets/RPGMakerMCP/MCPServer/src/bridge/bridge_connector.py:55-74 | After a normal close the delay is the reconnect delay; the 1st, 2nd and 3rd consecutive refused/timed-out failures wait 500, 1000 and 2000 ms; later quick failures and all OS or other errors wait `max(1000, reconnect)` |
| BridgeConnector.DelayBounds | Assets/RPGMakerMCP/MCPServer/src/bridge/bridge_connector.py:41-74 | Before any attempt the delay is 0; after any failure it lies between 500 ms and `max(2000, steady delay)` |
| BridgeConnector.RunLoop | Assets/RPGMakerMCP/MCPServer/src/bridge/bridge_connector.py:40-76 | The supervisor loop waits before attempt k exactly the delay of the state after the first k outcomes, never waits before the first attempt, and ends in the state the step function gives for all outcomes |
| BridgeConnector.PingIntervalMs | Assets/RPGMakerMCP/MCPServer/src/bridge/bridge_connector.py:117 | The heartbeat interval is `max(5000, reconnect)` ms |
| BridgeConnector.ConsecutivePingFailures | Assets/RPGMakerMCP/MCPServer/src/bridge/bridge_connector.py:119-144 | The failure counter never exceeds the number of pings |
| BridgeConnector.PingLoop | Assets/RPGMakerMCP/MCPServer/src/bridge/bridge_connector.py:119-144 | The heartbeat stops early exactly when the consecutive-failure count reaches 3; before that point, and throughout a run that never stops, the count stays below 3 |
| BridgeConnector.FailureRunIsUnanswered | Assets/RPGMakerMCP/MCPServer/src/bridge/bridge_connector.py:130-140 | The counted failures are exactly the trailing unanswered pings: every ping in that tail failed and the ping just before it succeeded |
| BridgeConnector.StartStep | Assets/RPGMakerMCP/MCPServer/src/bridge/bridge_connector.py:22-27 | Start leaves the connector running; starting a running connector changes nothing; a fresh start clears the stop and intentional-close flags |
| BridgeConnector.StopStep | Assets/RPGMakerMCP/MCPServer/src/bridge/bridge_connector.py:29-38 | Stop leaves the connector not running, with the stop and intentional-close flags set |
| BridgeConnector.RunEndStep | Assets/RPGMakerMCP/MCPServer/src/bridge/bridge_connector.py:75-76 | When the run task ends the connector is not running and the flags are kept |
| BridgeConnector.StartIdempotent | Assets/RPGMakerMCP/MCPServer/src/bridge/bridge_connector.py:22-27 | Starting twice is the same as starting once |
| BridgeConnector.StopIdempotent | Assets/RPGMakerMCP/MCPServer/src/bridge/bridge_connector.py:29-38 | Stopping twice is the same as stopping once |
| BridgeConnector.StartAfterStop | Assets/RPGMakerMCP/MCPServer/src/bridge/bridge_connector.py:22-38 | Start after stop always gives a running connector with both flags cleared |
| BridgeConnector.Connector.constructor | Assets/RPGMakerMCP/MCPServer/src/bridge/bridge_connector.py:16-19 | A new connector is stopped with both flags clear |
| BridgeConnector.Connector.Start | Assets/RPGMakerMCP/MCPServer/src/bridge/bridge_connector.py:22-27 | The connector's flags change exactly as `StartStep` says |
| BridgeConnector.Connector.Stop | Assets/RPGMakerMCP/MCPServer/src/bridge/bridge_connector.py:29-38 | The connector's flags change exactly as `StopStep` says |
| BridgeConnector.Connector.Run | Assets/RPGMakerMCP/MCPServer/src/bridge/bridge_connector.py:40-76 | The waits are those of the retry state machine, and the final flags follow `RunEndStep` |
| Constants.MaskToken | Assets/RPGMakerMCP/MCPServer/src/config/constants.py:82-109 | "not set" iff the token is missing or empty; "set" iff it has 1 to 4 characters; otherwise "****" followed by exactly the last 4 characters; never longer than 8 |
| Constants.MaskRevealsOnlyTail | Assets/RPGMakerMCP/MCPServer/src/config/constants.py:103-109 | Two tokens in the same length class with the same last 4 characters mask identically, so the mask reveals nothing but the tail |
| Constants.MaskHidesPrefix | Assets/RPGMakerMCP/MCPServer/src/config/constants.py:106-107 | Changing any character before the last 4 does not change the mask |
| McpBridgeConstants.MaskToken | Assets/RPGMakerMCP/Editor/MCPBridge/Config/McpBridgeConstants.cs:170-189 | "not set" for a null or empty token, "****" + last 4 for longer than 4 characters, "set" otherwise |
| McpBridgeConstants.MaskTokenAgrees | Assets/RPGMakerMCP/Editor/MCPBridge/Config/McpBridgeConstants.cs:170-189 | On tokens within the Basic Multilingual Plane, the C# mask and the Python `mask_token` agree |
| McpBridgeConstants.IsPathWithinProject | Assets/RPGMakerMCP/Editor/MCPBridge/Config/McpBridgeConstants.cs:102-123 | False for a null or empty path; true iff both the path and the root normalise without error and the normalised path starts with the normalised root, ignoring ASCII case |
| McpBridgeConstants.ValidateAndNormalizePath | Assets/RPGMakerMCP/Editor/MCPBridge/Config/McpBridgeConstants.cs:132-160 | An empty path fails with "empty"; a path that does not normalise fails with "Invalid path format"; a root that does not normalise fails with its own exception; otherwise the normalised path is returned when it starts with the normalised root (ignoring ASCII case) and "Path traversal detected" names the root when it does not |
| McpBridgeConstants.ValidateAgreesWithCheck | Assets/RPGMakerMCP/Editor/MCPBridge/Config/McpBridgeConstants.cs:132-160 | Validation succeeds iff `IsPathWithinProject` holds, and then returns the normalised path; a rejected path fails as empty, as an invalid format, with the root's own exception, or as a traversal, in that order of checks |
| McpBridgeConstants.ValidatedPathIsWithinProject | Assets/RPGMakerMCP/Editor/MCPBridge/Config/McpBridgeConstants.cs:159 | A validated path whose normalisation is stable passes `IsPathWithinProject` itself |
| McpBridgeConstants.PrefixIgnoringCase | Assets/RPGMakerMCP/Editor/MCPBridge/Config/McpBridgeConstants.cs:111-116 | Any path that extends the root textually passes the case-insensitive prefix test |
| McpBridgeConstants.SiblingDirectoryAccepted | Assets/RPGMakerMCP/Editor/MCPBridge/Config/McpBridgeConstants.cs:111-116 | Counterexample: root `/p/Assets` accepts `/p/AssetsEvil/a.json`, which is not inside the root directory |
| McpBridgeConstants.ChildIsUnder | Assets/RPGMakerMCP/Editor/MCPBridge/Config/McpBridgeConstants.cs:111-116 | The root itself and anything below it at a separator count as under the root |
| McpBridgeConstants.SiblingIsNotUnder | Assets/RPGMakerMCP/Editor/MCPBridge/Config/McpBridgeConstants.cs:111-116 | A sibling whose name merely extends the root's last component is not under the root |
| McpBridgeConstants.IsPathUnderRoot | Assets/RPGMakerMCP/Editor/MCPBridge/Config/McpBridgeConstants.cs:102-123 | The corrected check: true iff the path is the root or lies below it at a separator boundary; it implies the original check |
| McpBridgeConstants.CorrectedCheckSeparatesSiblings | Assets/RPGMakerMCP/Editor/MCPBridge/Config/McpBridgeConstants.cs:111-116 | The corrected check rejects the sibling directory and accepts a child below a separator |
| RegisterTools.ToolNameMapIsInjective | Assets/RPGMakerMCP/MCPServer/src/tools/register_tools.py:101-105 | The tool-name map sends `unity_ping` to `ping`, `unity_compilation_await` to `compilationAwait` and the eight `rpgmaker_*` tools to their bridge names; no two tools share a bridge command |
| RegisterTools.SecondsToMs | Assets/RPGMakerMCP/MCPServer/src/tools/register_tools.py:32 | Whole seconds become a whole number of milliseconds that divides back to the seconds |
| RegisterTools.BridgeTimeoutMs | Assets/RPGMakerMCP/MCPServer/src/tools/register_tools.py:29-32 | 45000 ms without `timeoutSeconds`, else `(timeoutSeconds + 20) * 1000`; always whole seconds |
| RegisterTools.CallBridgeTool | Assets/RPGMakerMCP/MCPServer/src/tools/register_tools.py:19-40 | A request is sent iff the bridge is connected and the timeout can be computed, and then it is exactly the command with the payload and that timeout; a disconnected bridge or a bad timeout fails without sending; a text reply is returned as it is and any other reply as pretty JSON; a timeout or other failure is re-raised naming the tool |
| RegisterTools.CallTool | Assets/RPGMakerMCP/MCPServer/src/tools/register_tools.py:101-145 | An unmapped name fails with `UnknownTool`; a known tool on a disconnected bridge fails before sending; every tool but compilation await goes through `CallBridgeTool` under its mapped bridge name and the arguments (or `{}`); compilation await on a connected bridge sends an await request |
| RegisterTools.UnknownToolSendsNothing | Assets/RPGMakerMCP/MCPServer/src/tools/register_tools.py:125-128 | An unmapped tool name fails with "Unknown tool: <name>" and nothing is sent |
| RegisterTools.DisconnectedSendsNothing | Assets/RPGMakerMCP/MCPServer/src/tools/register_tools.py:19-23 | A known tool on a disconnected bridge fails with the not-connected error before any request |
| RegisterTools.RequestsUseMappedName | Assets/RPGMakerMCP/MCPServer/src/tools/register_tools.py:118-145 | Requests are only sent for known tools on a connected bridge; a command request uses the mapped bridge name, the call's arguments (or `{}`) and the computed timeout; only the compilation-await tool sends an await request |
| RegisterTools.CompilationAwaitTimeouts | Assets/RPGMakerMCP/MCPServer/src/tools/register_tools.py:131-142 | Compilation await waits 60 s unless told otherwise, and a timeout becomes the result `{success: false, timedOut: true, error}` instead of an error |
| RegisterTools.FailureNamesTheTool | Assets/RPGMakerMCP/MCPServer/src/tools/register_tools.py:34-37 | A failed bridge command surfaces as `Unity bridge tool "<bridge name>" failed: <cause>` |
| RegisterTools.KnownToolReplyIsReturned | Assets/RPGMakerMCP/MCPServer/src/tools/register_tools.py:27-40 | A known tool on a connected bridge sends exactly one command under its bridge name with the arguments and the computed timeout, and the reply is the call's text content |
| DataModelMapper.Merge | Assets/RPGMakerMCP/Editor/MCPBridge/Services/DataModelMapper.cs:275-290 | The result has the keys of both sides; original-only keys keep their values; an update value wins unless both sides hold dictionaries, which are merged recursively |
| DataModelMapper.MergeDicts | Assets/RPGMakerMCP/Editor/MCPBridge/Services/DataModelMapper.cs:268-293 | A null original gives the updates, null updates give the original, otherwise the recursive merge |
| DataModelMapper.MergeSelf | Assets/RPGMakerMCP/Editor/MCPBridge/Services/DataModelMapper.cs:275-290 | Merging a dictionary with itself gives it back |
| DataModelMapper.MergeIdempotent | Assets/RPGMakerMCP/Editor/MCPBridge/Services/DataModelMapper.cs:275-290 | Applying the same updates a second time changes nothing |
| DataModelMapper.MergeUpdatesWin | Assets/RPGMakerMCP/Editor/MCPBridge/Services/DataModelMapper.cs:279-289 | Any non-null, non-dictionary value reachable along a path in the updates is what the merged result holds at that path |
| DataModelMapper.GetNestedValue | Assets/RPGMakerMCP/Editor/MCPBridge/Services/DataModelMapper.cs:299-327 | Null for a null dictionary or empty path; otherwise the value found by walking the dot-separated segments, null at a missing segment or non-dictionary step |
| DataModelMapper.SetNested | Assets/RPGMakerMCP/Editor/MCPBridge/Services/DataModelMapper.cs:340-360 | On an open path the keys grow by the first segment only; on a path blocked by a non-dictionary step nothing changes; other keys are untouched |
| DataModelMapper.SetNestedKeepsOtherPaths | Assets/RPGMakerMCP/Editor/MCPBridge/Services/DataModelMapper.cs:344-359 | Every path that leaves the assigned path at some level, by naming another key there, reads the same value before and after, so siblings in the nested dictionaries along the way are kept |
| DataModelMapper.SetNestedValue | Assets/RPGMakerMCP/Editor/MCPBridge/Services/DataModelMapper.cs:333-361 | A null dictionary stays null, an empty path changes nothing, otherwise the value is set along the split path |
| DataModelMapper.SetThenLookup | Assets/RPGMakerMCP/Editor/MCPBridge/Services/DataModelMapper.cs:340-360 | After setting along an open segment path, walking that path finds the value |
| DataModelMapper.SetThenGet | Assets/RPGMakerMCP/Editor/MCPBridge/Services/DataModelMapper.cs:333-361 | `GetNestedValue` after `SetNestedValue` on an open dotted path returns the value set |
| DataModelMapper.SetBlockedIsNoOp | Assets/RPGMakerMCP/Editor/MCPBridge/Services/DataModelMapper.cs:349-357 | When an existing intermediate is not a dictionary, `SetNestedValue` leaves the dictionary unchanged |
| DataModelMapper.FieldKey | Assets/RPGMakerMCP/Editor/MCPBridge/Services/DataModelMapper.cs:376-380 | A field is keyed by the last dot-separated segment of its path |
| DataModelMapper.ExtractFields | Assets/RPGMakerMCP/Editor/MCPBridge/Services/DataModelMapper.cs:366-386 | A null dictionary gives null; otherwise the result is the extraction of all paths in order |
| DataModelMapper.ExtractedKeys | Assets/RPGMakerMCP/Editor/MCPBridge/Services/DataModelMapper.cs:374-383 | A key is present iff some path ends in it and has a non-null value, and each present value is the nested value of the last such path, as later assignments overwrite earlier ones |
| MiniJson.Convert | Assets/RPGMakerMCP/Editor/MCPBridge/MiniJson.cs:65-115 | Objects become dictionaries with the same keys; arrays become lists of the same length; integers become `int` iff they fit 32 bits, else `long`; null and undefined become null; strings stay strings |
| MiniJson.ConvertJToken | Assets/RPGMakerMCP/Editor/MCPBridge/MiniJson.cs:65-115 | Conversion succeeds iff every integer fits 64 bits, and then agrees with `Convert` |
| MiniJson.Deserialize | Assets/RPGMakerMCP/Editor/MCPBridge/MiniJson.cs:29-38 | Null or empty text gives null; a parse error is reported; otherwise the parsed token is converted |
| MiniJson.ConvertRoundTrip | Assets/RPGMakerMCP/Editor/MCPBridge/MiniJson.cs:65-115 | Turning the converted value back into a token gives the token's canonical form, so conversion loses nothing but the token kind of dates and other text values |
| MiniJson.ObjectRoundTrip | Assets/RPGMakerMCP/Editor/MCPBridge/MiniJson.cs:74-80 | The round trip holds for objects, property by property |
| MiniJson.ArrayRoundTrip | Assets/RPGMakerMCP/Editor/MCPBridge/MiniJson.cs:82-88 | The round trip holds for arrays, element by element |
| MiniJson.ConvertCanonical | Assets/RPGMakerMCP/Editor/MCPBridge/MiniJson.cs:65-115 | A token and its canonical form convert to the same value |
| MiniJson.ReconvertIsStable | Assets/RPGMakerMCP/Editor/MCPBridge/MiniJson.cs:65-115 | Converting, turning back into a token and converting again gives the first conversion |
| Text.Strip | Assets/RPGMakerMCP/MCPServer/src/bridge/bridge_connector.py:191 | Python `str.strip()`: the result is the input with a white-space prefix and a white-space suffix cut off, and it is empty iff the text is all white space and otherwise neither starts nor ends with white space |
| Text.StripIdempotent | Assets/RPGMakerMCP/MCPServer/src/bridge/bridge_connector.py:191 | Stripping twice is stripping once |
| Text.Split | Assets/RPGMakerMCP/Editor/MCPBridge/Services/DataModelMapper.cs:303 | `Split('.')` gives at least one part, no part holds the separator, and text without the separator is one part |
| Text.JoinSplit | Assets/RPGMakerMCP/Editor/MCPBridge/Services/DataModelMapper.cs:303 | Joining the parts with the separator gives the text back |
| Text.ParseIntToString | Assets/RPGMakerMCP/Editor/MCPBridge/Handlers/RPGMaker/RPGMakerGameStateHandler.cs:524 | The decimal text of any integer parses back to it |
| Text.FileName | Assets/RPGMakerMCP/Editor/MCPBridge/Handlers/RPGMaker/RPGMakerAssetsHandler.cs:282 | `Path.GetFileName`: a suffix of the path holding no directory separator |
| Text.ExtensionShape | Packages/jp.ggg.rpgmaker.unite/Editor/ExtractOnImport.cs:32 | `Path.GetExtension`: empty, or a '.' followed by no further '.', ending the path |
| Json.Wrap32 | Assets/RPGMakerMCP/Editor/MCPBridge/Handlers/RPGMaker/RPGMakerEventHandler.cs:1103 | The `(int)` cast of a `long` lands in the 32-bit range and keeps values that already fit |
| Json.Wrap32Congruent | Assets/RPGMakerMCP/Editor/MCPBridge/Handlers/RPGMaker/RPGMakerEventHandler.cs:1103 | The cast changes a value only by a multiple of 2^32 |
| Json.FromObject | Assets/RPGMakerMCP/Editor/MCPBridge/Handlers/RPGMaker/RPGMakerEventHandler.cs:1138-1151 | `JToken.FromObject`: dictionaries become objects with the same keys, lists arrays of the same length, strings and null their tokens |
| HandlerArgs.FirstGiven | Assets/RPGMakerMCP/Editor/MCPBridge/Handlers/RPGMaker/RPGMakerEventHandler.cs:1085-1088 | `a ?? b`: the first argument when present, else the second |
| HandlerArgs.TryParseInt32 | Assets/RPGMakerMCP/Editor/MCPBridge/Handlers/RPGMaker/RPGMakerEventHandler.cs:1106 | `int.TryParse` succeeds exactly on decimal text whose value fits 32 bits, and returns that value |
| HandlerArgs.GetInt | Assets/RPGMakerMCP/Editor/MCPBridge/Handlers/RPGMaker/RPGMakerEventHandler.cs:1099-1109 | A missing key gives the default; a `long` is cast to `int`; an `int` is returned; any other value is parsed from its text, falling back to the default |
| HandlerArgs.GetIntReadsDecimalText | Assets/RPGMakerMCP/Editor/MCPBridge/Handlers/RPGMaker/RPGMakerGameStateHandler.cs:517-527 | A payload string holding a 32-bit integer's decimal text reads back as that integer |
| HandlerArgs.GetIntFallsBack | Assets/RPGMakerMCP/Editor/MCPBridge/Handlers/RPGMaker/RPGMakerGameStateHandler.cs:517-527 | Null, list, dictionary and digit-free text values give the default |
| HandlerArgs.GetDict | Assets/RPGMakerMCP/Editor/MCPBridge/Handlers/RPGMaker/RPGMakerEventHandler.cs:1090-1097 | `value as Dictionary`: present exactly when the key holds a dictionary, and then that dictionary |
| EditorDataService.BaseName | Assets/RPGMakerMCP/Editor/MCPBridge/Services/EditorDataService.cs:1251-1258 | One trailing " (Copy)" is stripped, and only one |
| EditorDataService.CandidatesDiffer | Assets/RPGMakerMCP/Editor/MCPBridge/Services/EditorDataService.cs:1260-1266 | Candidate names for different counters are different |
| EditorDataService.CreateDuplicateName | Assets/RPGMakerMCP/Editor/MCPBridge/Services/EditorDataService.cs:1249-1270 | The returned name is not taken, and it is the first free candidate: " (Copy)", then " (Copy)2", " (Copy)3", … |
| EditorDataService.BaseNameOfCopy | Assets/RPGMakerMCP/Editor/MCPBridge/Services/EditorDataService.cs:1254-1258 | Stripping the suffix from a copy's name gives the name back |
| EditorDataService.FreeCopyNameIsChosen | Assets/RPGMakerMCP/Editor/MCPBridge/Services/EditorDataService.cs:1260-1263 | When `<base> (Copy)` is free, it is the name chosen |
| EditorDataService.DuplicateNameIsUnique | Assets/RPGMakerMCP/Editor/MCPBridge/Services/EditorDataService.cs:1263-1267 | The first free candidate is unique, so the loop's answer is determined |
| EditorDataService.DeleteCharacterSpec | Assets/RPGMakerMCP/Editor/MCPBridge/Services/EditorDataService.cs:149-190 | Fails with "not found" iff no character has the uuid; otherwise exactly one character is removed and items are untouched |
| EditorDataService.DeleteRemovesFirstMatch | Assets/RPGMakerMCP/Editor/MCPBridge/Services/EditorDataService.cs:151-157 | The character removed is the first one with the uuid; the others keep their order |
| EditorDataService.DeleteShrinksParty | Assets/RPGMakerMCP/Editor/MCPBridge/Services/EditorDataService.cs:164-169 | With fewer actors left than `partyMax`, every occurrence of the uuid leaves the party, the other members keep their order and multiplicity, nobody joins, a party without the uuid is unchanged, and `partyMax` becomes the party size |
| EditorDataService.DeleteReplacesMember | Assets/RPGMakerMCP/Editor/MCPBridge/Services/EditorDataService.cs:171-186 | Otherwise `partyMax` and the party size are kept; a party without the uuid, or with no actor left outside it, is unchanged; when the uuid is in the party and some remaining actor is outside it, the first occurrence of the uuid is replaced by the first such actor, and that is the only way the party changes |
| EditorDataService.DeleteKeepsPartyDistinct | Assets/RPGMakerMCP/Editor/MCPBridge/Services/EditorDataService.cs:162-186 | A party without duplicates keeps none after the repair |
| EditorDataService.ReplaceMember | Assets/RPGMakerMCP/Editor/MCPBridge/Services/EditorDataService.cs:177-184 | The loop replaces exactly the first occurrence of the uuid |
| EditorDataService.UpdateItemSpec | Assets/RPGMakerMCP/Editor/MCPBridge/Services/EditorDataService.cs:244-258 | Fails with "not found" iff no item has the id; otherwise only the first matching item is replaced by its update, which is returned |
| EditorDataService.DeleteItemSpec | Assets/RPGMakerMCP/Editor/MCPBridge/Services/EditorDataService.cs:263-275 | Fails with "not found" iff no item has the id; otherwise exactly the first matching item is removed |
| EditorDataService.Database.constructor | Assets/RPGMakerMCP/Editor/MCPBridge/Services/EditorDataService.cs:149-161 | The database state is the given characters, party, `partyMax` and items |
| EditorDataService.Database.DeleteCharacter | Assets/RPGMakerMCP/Editor/MCPBridge/Services/EditorDataService.cs:149-190 | On error the state is unchanged; otherwise the state becomes `DeleteCharacterSpec`'s |
| EditorDataService.Database.RepairPartyInPlace | Assets/RPGMakerMCP/Editor/MCPBridge/Services/EditorDataService.cs:160-187 | The party is repaired in place exactly as the specification function says |
| EditorDataService.Database.UpdateItem | Assets/RPGMakerMCP/Editor/MCPBridge/Services/EditorDataService.cs:244-258 | On error the state is unchanged; otherwise the state and result are `UpdateItemSpec`'s |
| EditorDataService.Database.DeleteItem | Assets/RPGMakerMCP/Editor/MCPBridge/Services/EditorDataService.cs:263-275 | On error the state is unchanged; otherwise the state is `DeleteItemSpec`'s |
| RPGMakerEventHandler.Items | Assets/RPGMakerMCP/Editor/MCPBridge/Handlers/RPGMaker/RPGMakerEventHandler.cs:144-150 | An event file's items exist iff the file is loaded as an array |
| RPGMakerEventHandler.ScanFrom | Assets/RPGMakerMCP/Editor/MCPBridge/Handlers/RPGMaker/RPGMakerEventHandler.cs:144-169 | Within one file: a found index holds an object with the id and is preceded only by objects without it; "none" means no object has it; a non-object element before a match is an error |
| RPGMakerEventHandler.FindFrom | Assets/RPGMakerMCP/Editor/MCPBridge/Handlers/RPGMaker/RPGMakerEventHandler.cs:144-169 | A found location is valid, holds an object with the id, and earlier items of its file do not |
| RPGMakerEventHandler.FindEvent | Assets/RPGMakerMCP/Editor/MCPBridge/Handlers/RPGMaker/RPGMakerEventHandler.cs:144-169 | The lookup result over eventCommon, eventBattle, eventMap is a valid location of an event with the id |
| RPGMakerEventHandler.FoundAt | Assets/RPGMakerMCP/Editor/MCPBridge/Handlers/RPGMaker/RPGMakerEventHandler.cs:144-169 | A located event's position is valid and holds an event with the id |
| RPGMakerEventHandler.FindFromIsFirst | Assets/RPGMakerMCP/Editor/MCPBridge/Handlers/RPGMaker/RPGMakerEventHandler.cs:144-169 | The file found is preceded in scan order only by files with no match; "none" means no file has one |
| RPGMakerEventHandler.FindEventIsFirst | Assets/RPGMakerMCP/Editor/MCPBridge/Handlers/RPGMaker/RPGMakerEventHandler.cs:144-169 | The lookup acts on the first match in the order eventCommon, eventBattle, eventMap |
| RPGMakerEventHandler.PutEvent | Assets/RPGMakerMCP/Editor/MCPBridge/Handlers/RPGMaker/RPGMakerEventHandler.cs:312 | Writing an event back changes only its slot in its own file |
| RPGMakerEventHandler.SetProp | Assets/RPGMakerMCP/Editor/MCPBridge/Handlers/RPGMaker/RPGMakerEventHandler.cs:916-917 | Setting a property changes exactly that key |
| RPGMakerEventHandler.FromDict | Assets/RPGMakerMCP/Editor/MCPBridge/Handlers/RPGMaker/RPGMakerEventHandler.cs:310 | A payload dictionary becomes an object with the same keys |
| RPGMakerEventHandler.FileListing | Assets/RPGMakerMCP/Editor/MCPBridge/Handlers/RPGMaker/RPGMakerEventHandler.cs:108-122 | A file's listing has at most one entry per item |
| RPGMakerEventHandler.FileListingIsSound | Assets/RPGMakerMCP/Editor/MCPBridge/Handlers/RPGMaker/RPGMakerEventHandler.cs:108-122 | Every listed event comes from the file, has a non-empty id and is an item of the file with that id |
| RPGMakerEventHandler.FileListingIsComplete | Assets/RPGMakerMCP/Editor/MCPBridge/Handlers/RPGMaker/RPGMakerEventHandler.cs:108-122 | Every object item with a non-empty id is listed, named "Unnamed Event" when it has no name |
| RPGMakerEventHandler.ListingFromIsSound | Assets/RPGMakerMCP/Editor/MCPBridge/Handlers/RPGMaker/RPGMakerEventHandler.cs:87-133 | Every entry of the listing is an event of the listed file |
| RPGMakerEventHandler.ListingIsSound | Assets/RPGMakerMCP/Editor/MCPBridge/Handlers/RPGMaker/RPGMakerEventHandler.cs:87-133 | `ListCommonEvents` lists only stored events |
| RPGMakerEventHandler.ListingFromIsComplete | Assets/RPGMakerMCP/Editor/MCPBridge/Handlers/RPGMaker/RPGMakerEventHandler.cs:87-133 | Every event with a non-empty id in a well-formed file is listed |
| RPGMakerEventHandler.GetCommonEventByIdSpec | Assets/RPGMakerMCP/Editor/MCPBridge/Handlers/RPGMaker/RPGMakerEventHandler.cs:135-170 | Missing id is rejected, an unknown id is "not found", and a found event has the requested id and comes from an event file |
| RPGMakerEventHandler.CreateCommonEventSpec | Assets/RPGMakerMCP/Editor/MCPBridge/Handlers/RPGMaker/RPGMakerEventHandler.cs:223-268 | Missing event data is rejected |
| RPGMakerEventHandler.CreateAppendsOneEvent | Assets/RPGMakerMCP/Editor/MCPBridge/Handlers/RPGMaker/RPGMakerEventHandler.cs:226-258 | The target file defaults to eventCommon; the id is the given one or a fresh one; exactly one event with that id is appended and other files are unchanged |
| RPGMakerEventHandler.UpdateCommonEventSpec | Assets/RPGMakerMCP/Editor/MCPBridge/Handlers/RPGMaker/RPGMakerEventHandler.cs:270-329 | A missing id or missing event data is rejected; an id no event has is "Common event ... not found" |
| RPGMakerEventHandler.UpdateEventReplacesOne | Assets/RPGMakerMCP/Editor/MCPBridge/Handlers/RPGMaker/RPGMakerEventHandler.cs:283-318 | After an update the located event is the event data with the id written back (full update) or the old event merged with the data (partial update; a non-object is replaced by the data); every other event and file is unchanged |
| RPGMakerEventHandler.FullUpdateKeepsId | Assets/RPGMakerMCP/Editor/MCPBridge/Handlers/RPGMaker/RPGMakerEventHandler.cs:299-312 | A full update replaces only the located event, which keeps its id; other items and files are unchanged |
| RPGMakerEventHandler.DeleteCommonEventSpec | Assets/RPGMakerMCP/Editor/MCPBridge/Handlers/RPGMaker/RPGMakerEventHandler.cs:331-373 | A missing id is rejected and an unknown id is "not found" |
| RPGMakerEventHandler.DeleteRemovesExactlyOne | Assets/RPGMakerMCP/Editor/MCPBridge/Handlers/RPGMaker/RPGMakerEventHandler.cs:351-358 | Exactly the first event with the id is removed from its file; the others keep their order and other files are unchanged |
| RPGMakerEventHandler.GetEventCommandsSpec | Assets/RPGMakerMCP/Editor/MCPBridge/Handlers/RPGMaker/RPGMakerEventHandler.cs:379-429 | A missing id is rejected and an unknown one is not found; for the located event, no page array or a page index past its end gives "no commands", a negative index is out of range, a non-object page gives an empty list, a page object gives its list, and a page object without a list fails to convert |
| RPGMakerEventHandler.Padded | Assets/RPGMakerMCP/Editor/MCPBridge/Handlers/RPGMaker/RPGMakerEventHandler.cs:464-470 | Pages are padded with empty pages so the index is in range, and existing pages are kept |
| RPGMakerEventHandler.PadPages | Assets/RPGMakerMCP/Editor/MCPBridge/Handlers/RPGMaker/RPGMakerEventHandler.cs:464-470 | The padding loop produces exactly `Padded` |
| RPGMakerEventHandler.CreateEventCommandSpec | Assets/RPGMakerMCP/Editor/MCPBridge/Handlers/RPGMaker/RPGMakerEventHandler.cs:431-492 | A missing id or missing command data is rejected |
| RPGMakerEventHandler.AppendCommandPads | Assets/RPGMakerMCP/Editor/MCPBridge/Handlers/RPGMaker/RPGMakerEventHandler.cs:464-475 | Pages are padded with `{list: []}` up to the index, other pages are kept, and the command is appended to the page's list |
| RPGMakerEventHandler.CreateCommandPadsThenAppends | Assets/RPGMakerMCP/Editor/MCPBridge/Handlers/RPGMaker/RPGMakerEventHandler.cs:431-492 | In the store, the located event's pages are padded and the command appended to the chosen page |
| RPGMakerEventHandler.CommandSlot | Assets/RPGMakerMCP/Editor/MCPBridge/Handlers/RPGMaker/RPGMakerEventHandler.cs:536-547 | A missing page or out-of-range page index is rejected; a found slot is in range of both the pages and the command list |
| RPGMakerEventHandler.UpdateEventCommandSpec | Assets/RPGMakerMCP/Editor/MCPBridge/Handlers/RPGMaker/RPGMakerEventHandler.cs:494-578 | A missing id is rejected; a negative command index is rejected before lookup |
| RPGMakerEventHandler.UpdateCommandReplacesOne | Assets/RPGMakerMCP/Editor/MCPBridge/Handlers/RPGMaker/RPGMakerEventHandler.cs:529-560 | After an update, the command at the index of the page's list is the new data, or the merge for a partial update of an object; every other command, page, event property, event and file is unchanged |
| RPGMakerEventHandler.DeleteEventCommandSpec | Assets/RPGMakerMCP/Editor/MCPBridge/Handlers/RPGMaker/RPGMakerEventHandler.cs:580-646 | A missing id is rejected; a negative command index is rejected before lookup |
| RPGMakerEventHandler.NegativeCommandIndexIsRefused | Assets/RPGMakerMCP/Editor/MCPBridge/Handlers/RPGMaker/RPGMakerEventHandler.cs:507-510 | A negative command index is rejected whatever the stored events |
| RPGMakerEventHandler.DeleteCommandRemovesOne | Assets/RPGMakerMCP/Editor/MCPBridge/Handlers/RPGMaker/RPGMakerEventHandler.cs:615-628 | Exactly the command at the index is removed and the page count is unchanged |
| RPGMakerEventHandler.GetEventPagesSpec | Assets/RPGMakerMCP/Editor/MCPBridge/Handlers/RPGMaker/RPGMakerEventHandler.cs:652-690 | A missing id is rejected and an unknown one is not found; for the located event, no `pages`, a JSON null or an empty string gives an empty list, a page array gives exactly its pages, and any other value fails to convert |
| RPGMakerEventHandler.CreateEventPageSpec | Assets/RPGMakerMCP/Editor/MCPBridge/Handlers/RPGMaker/RPGMakerEventHandler.cs:692-747 | A missing id is rejected |
| RPGMakerEventHandler.CreatePageAppends | Assets/RPGMakerMCP/Editor/MCPBridge/Handlers/RPGMaker/RPGMakerEventHandler.cs:692-747 | The located event gets exactly one page appended |
| RPGMakerEventHandler.UpdateEventPageSpec | Assets/RPGMakerMCP/Editor/MCPBridge/Handlers/RPGMaker/RPGMakerEventHandler.cs:749-823 | A missing id or negative page index is rejected; success means the event was found with the page in range |
| RPGMakerEventHandler.UpdatePageReplacesOne | Assets/RPGMakerMCP/Editor/MCPBridge/Handlers/RPGMaker/RPGMakerEventHandler.cs:785-805 | After an update, the page at the index is the new data, or the merge for a partial update of an object; every other page, event property, event and file is unchanged |
| RPGMakerEventHandler.DeleteEventPageSpec | Assets/RPGMakerMCP/Editor/MCPBridge/Handlers/RPGMaker/RPGMakerEventHandler.cs:825-881 | A missing id or negative page index is rejected |
| RPGMakerEventHandler.DeletePageRemovesOne | Assets/RPGMakerMCP/Editor/MCPBridge/Handlers/RPGMaker/RPGMakerEventHandler.cs:835-864 | Exactly the page at the index is removed |
| RPGMakerEventHandler.CopyOf | Assets/RPGMakerMCP/Editor/MCPBridge/Handlers/RPGMaker/RPGMakerEventHandler.cs:914-919 | The copy has the new id, the name "<name> (Copy)" (default "Unnamed"), and every other property of the source |
| RPGMakerEventHandler.CopyEventSpec | Assets/RPGMakerMCP/Editor/MCPBridge/Handlers/RPGMaker/RPGMakerEventHandler.cs:887-937 | A missing source id is rejected; the new id is `targetId` or a fresh id |
| RPGMakerEventHandler.CopyAppendsCopy | Assets/RPGMakerMCP/Editor/MCPBridge/Handlers/RPGMaker/RPGMakerEventHandler.cs:908-921 | The copy is appended to the source's file, and nothing else changes |
| RPGMakerEventHandler.MoveEventSpec | Assets/RPGMakerMCP/Editor/MCPBridge/Handlers/RPGMaker/RPGMakerEventHandler.cs:939-1005 | A missing source id or target file is rejected |
| RPGMakerEventHandler.MoveRelocatesEvent | Assets/RPGMakerMCP/Editor/MCPBridge/Handlers/RPGMaker/RPGMakerEventHandler.cs:966-988 | The event leaves its file and is appended unchanged to the target file (or to the end of its own file); other files are unchanged |
| RPGMakerEventHandler.NoPageIssues | Assets/RPGMakerMCP/Editor/MCPBridge/Handlers/RPGMaker/RPGMakerEventHandler.cs:1040-1058 | No page issues iff every page is an object with a command list |
| RPGMakerEventHandler.ValidIffWellFormed | Assets/RPGMakerMCP/Editor/MCPBridge/Handlers/RPGMaker/RPGMakerEventHandler.cs:1032-1067 | An event has no issues iff it has a name, a non-empty page list, and every page is an object with a list |
| RPGMakerEventHandler.CollectIssues | Assets/RPGMakerMCP/Editor/MCPBridge/Handlers/RPGMaker/RPGMakerEventHandler.cs:1032-1067 | The issues loop collects exactly the specified issues |
| RPGMakerEventHandler.CollectPageIssues | Assets/RPGMakerMCP/Editor/MCPBridge/Handlers/RPGMaker/RPGMakerEventHandler.cs:1047-1058 | The page loop collects exactly the specified page issues |
| RPGMakerEventHandler.ValidateEventSpec | Assets/RPGMakerMCP/Editor/MCPBridge/Handlers/RPGMaker/RPGMakerEventHandler.cs:1007-1079 | A missing id is rejected; the event is valid iff it has no issues |
| RPGMakerEventHandler.WritingOperationsWait | Assets/RPGMakerMCP/Editor/MCPBridge/Handlers/RPGMaker/RPGMakerEventHandler.cs:22-83 | Exactly the 11 writing operations wait for compilation; the read-only ones do not |
| RPGMakerEventHandler.ListFile | Assets/RPGMakerMCP/Editor/MCPBridge/Handlers/RPGMaker/RPGMakerEventHandler.cs:108-122 | The listing loop over one file produces exactly `FileListing` |
| RPGMakerEventHandler.ListingFromStep | Assets/RPGMakerMCP/Editor/MCPBridge/Handlers/RPGMaker/RPGMakerEventHandler.cs:87-133 | The listing is the current file's listing followed by the rest |
| RPGMakerEventHandler.ListAll | Assets/RPGMakerMCP/Editor/MCPBridge/Handlers/RPGMaker/RPGMakerEventHandler.cs:87-133 | The loop over the three files produces exactly the listing |
| RPGMakerEventHandler.EventStore.constructor | Assets/RPGMakerMCP/Editor/MCPBridge/Handlers/RPGMaker/RPGMakerEventHandler.cs:87-98 | The store holds the loaded event files |
| RPGMakerEventHandler.EventStore.Locate | Assets/RPGMakerMCP/Editor/MCPBridge/Handlers/RPGMaker/RPGMakerEventHandler.cs:144-169 | The lookup loop returns exactly `FindEvent` |
| RPGMakerEventHandler.EventStore.ListEvents | Assets/RPGMakerMCP/Editor/MCPBridge/Handlers/RPGMaker/RPGMakerEventHandler.cs:87-133 | Lists exactly `Listing` |
| RPGMakerEventHandler.EventStore.GetCommonEventById | Assets/RPGMakerMCP/Editor/MCPBridge/Handlers/RPGMaker/RPGMakerEventHandler.cs:135-170 | Returns exactly `GetCommonEventByIdSpec` |
| RPGMakerEventHandler.EventStore.CreateCommonEvent | Assets/RPGMakerMCP/Editor/MCPBridge/Handlers/RPGMaker/RPGMakerEventHandler.cs:223-268 | The store changes exactly as `CreateCommonEventSpec` says |
| RPGMakerEventHandler.EventStore.UpdateCommonEvent | Assets/RPGMakerMCP/Editor/MCPBridge/Handlers/RPGMaker/RPGMakerEventHandler.cs:270-329 | The store changes exactly as `UpdateCommonEventSpec` says |
| RPGMakerEventHandler.EventStore.DeleteCommonEvent | Assets/RPGMakerMCP/Editor/MCPBridge/Handlers/RPGMaker/RPGMakerEventHandler.cs:331-373 | The store changes exactly as `DeleteCommonEventSpec` says |
| RPGMakerEventHandler.EventStore.GetEventCommands | Assets/RPGMakerMCP/Editor/MCPBridge/Handlers/RPGMaker/RPGMakerEventHandler.cs:379-429 | Returns exactly `GetEventCommandsSpec` |
| RPGMakerEventHandler.EventStore.CreateEventCommand | Assets/RPGMakerMCP/Editor/MCPBridge/Handlers/RPGMaker/RPGMakerEventHandler.cs:431-492 | The store changes exactly as `CreateEventCommandSpec` says |
| RPGMakerEventHandler.EventStore.UpdateEventCommand | Assets/RPGMakerMCP/Editor/MCPBridge/Handlers/RPGMaker/RPGMakerEventHandler.cs:494-578 | The store changes exactly as `UpdateEventCommandSpec` says, which `UpdateCommandReplacesOne` characterises |
| RPGMakerEventHandler.EventStore.DeleteEventCommand | Assets/RPGMakerMCP/Editor/MCPBridge/Handlers/RPGMaker/RPGMakerEventHandler.cs:580-646 | The store changes exactly as `DeleteEventCommandSpec` says |
| RPGMakerEventHandler.EventStore.GetEventPages | Assets/RPGMakerMCP/Editor/MCPBridge/Handlers/RPGMaker/RPGMakerEventHandler.cs:652-690 | Returns exactly `GetEventPagesSpec`, so every case stated there, and leaves the files unchanged |
| RPGMakerEventHandler.EventStore.CreateEventPage | Assets/RPGMakerMCP/Editor/MCPBridge/Handlers/RPGMaker/RPGMakerEventHandler.cs:692-747 | The store changes exactly as `CreateEventPageSpec` says |
| RPGMakerEventHandler.EventStore.UpdateEventPage | Assets/RPGMakerMCP/Editor/MCPBridge/Handlers/RPGMaker/RPGMakerEventHandler.cs:749-823 | The store changes exactly as `UpdateEventPageSpec` says, which `UpdatePageReplacesOne` characterises |
| RPGMakerEventHandler.EventStore.DeleteEventPage | Assets/RPGMakerMCP/Editor/MCPBridge/Handlers/RPGMaker/RPGMakerEventHandler.cs:825-881 | The store changes exactly as `DeleteEventPageSpec` says |
| RPGMakerEventHandler.EventStore.CopyEvent | Assets/RPGMakerMCP/Editor/MCPBridge/Handlers/RPGMaker/RPGMakerEventHandler.cs:887-937 | The store changes exactly as `CopyEventSpec` says |
| RPGMakerEventHandler.EventStore.MoveEvent | Assets/RPGMakerMCP/Editor/MCPBridge/Handlers/RPGMaker/RPGMakerEventHandler.cs:939-1005 | The store changes exactly as `MoveEventSpec` says |
| RPGMakerEventHandler.EventStore.ValidateEvent | Assets/RPGMakerMCP/Editor/MCPBridge/Handlers/RPGMaker/RPGMakerEventHandler.cs:1007-1079 | Returns exactly `ValidateEventSpec` |
| RPGMakerGameStateHandler.ParseInt32 | Assets/RPGMakerMCP/Editor/MCPBridge/Handlers/RPGMaker/RPGMakerGameStateHandler.cs:246 | Parsing succeeds iff the text is a decimal integer in the 32-bit range, and returns it |
| RPGMakerGameStateHandler.ToInt32 | Assets/RPGMakerMCP/Editor/MCPBridge/Handlers/RPGMaker/RPGMakerGameStateHandler.cs:246 | `Convert.ToInt32` yields a 32-bit value: null is 0; an `int`, a `long` or a JSON integer is kept when in range and overflows otherwise; a string, boxed or in a token, is parsed; a boolean, boxed or in a token, is 1 or 0; lists, dictionaries and a JSON null fail to convert |
| RPGMakerGameStateHandler.AddItemSpec | Assets/RPGMakerMCP/Editor/MCPBridge/Handlers/RPGMaker/RPGMakerGameStateHandler.cs:220-259 | Rejected with "Item ID is required." iff the id is missing or empty; any other failure is a failed conversion of the stored count |
| RPGMakerGameStateHandler.AddChangesOnlyTheItem | Assets/RPGMakerMCP/Editor/MCPBridge/Handlers/RPGMaker/RPGMakerGameStateHandler.cs:244-252 | An absent item is set to the quantity, a present one to old + quantity (wrapping at 32 bits); other entries, the player and the flags are unchanged |
| RPGMakerGameStateHandler.RemoveItemSpec | Assets/RPGMakerMCP/Editor/MCPBridge/Handlers/RPGMaker/RPGMakerGameStateHandler.cs:261-303 | An empty id, a missing inventory and an absent item are each rejected with their message |
| RPGMakerGameStateHandler.RemoveChangesOnlyTheItem | Assets/RPGMakerMCP/Editor/MCPBridge/Handlers/RPGMaker/RPGMakerGameStateHandler.cs:286-296 | The count becomes old − quantity, and the entry is deleted when that is not positive; other entries are unchanged |
| RPGMakerGameStateHandler.RemoveKeepsCountsPositive | Assets/RPGMakerMCP/Editor/MCPBridge/Handlers/RPGMaker/RPGMakerGameStateHandler.cs:286-296 | Removal never stores a zero or negative count |
| RPGMakerGameStateHandler.AddKeepsCountsPositive | Assets/RPGMakerMCP/Editor/MCPBridge/Handlers/RPGMaker/RPGMakerGameStateHandler.cs:244-252 | Adding a positive quantity without overflow keeps every count positive |
| RPGMakerGameStateHandler.RemoveUndoesAdd | Assets/RPGMakerMCP/Editor/MCPBridge/Handlers/RPGMaker/RPGMakerGameStateHandler.cs:220-303 | Removing what was just added restores the inventory |
| RPGMakerGameStateHandler.SetProgressFlagSpec | Assets/RPGMakerMCP/Editor/MCPBridge/Handlers/RPGMaker/RPGMakerGameStateHandler.cs:336-377 | A flag type other than "switches"/"variables" is rejected, then a missing flag id; success changes only `flags[type][id]` |
| RPGMakerGameStateHandler.SetFlagThenRead | Assets/RPGMakerMCP/Editor/MCPBridge/Handlers/RPGMaker/RPGMakerGameStateHandler.cs:346-370 | After setting, the flag reads back as the value and other flags of that type are unchanged |
| RPGMakerGameStateHandler.TeleportSpec | Assets/RPGMakerMCP/Editor/MCPBridge/Handlers/RPGMaker/RPGMakerGameStateHandler.cs:427-474 | A missing map id is rejected, then negative x or y; success replaces only the player's "position" entry |
| RPGMakerGameStateHandler.TeleportDefaults | Assets/RPGMakerMCP/Editor/MCPBridge/Handlers/RPGMaker/RPGMakerGameStateHandler.cs:429-442 | Missing x or y defaults to -1 and is rejected; a missing direction defaults to 2 |
| RPGMakerGameStateHandler.WritingOperationsWait | Assets/RPGMakerMCP/Editor/MCPBridge/Handlers/RPGMaker/RPGMakerGameStateHandler.cs:20-68 | Of the 16 operations, exactly the ten writing operations wait for compilation |
| RPGMakerGameStateHandler.GameState.constructor | Assets/RPGMakerMCP/Editor/MCPBridge/Handlers/RPGMaker/RPGMakerGameStateHandler.cs:186-199 | The state is the given save data |
| RPGMakerGameStateHandler.GameState.LoadInventory | Assets/RPGMakerMCP/Editor/MCPBridge/Handlers/RPGMaker/RPGMakerGameStateHandler.cs:186-199 | The loaded inventory is the stored dictionary, or empty |
| RPGMakerGameStateHandler.GameState.AddItemToInventory | Assets/RPGMakerMCP/Editor/MCPBridge/Handlers/RPGMaker/RPGMakerGameStateHandler.cs:220-259 | The quantity is read with default 1 and the state changes as `AddItemSpec` says |
| RPGMakerGameStateHandler.GameState.AddQuantity | Assets/RPGMakerMCP/Editor/MCPBridge/Handlers/RPGMaker/RPGMakerGameStateHandler.cs:244-254 | The state changes as `AddItemSpec` says |
| RPGMakerGameStateHandler.GameState.RemoveItemFromInventory | Assets/RPGMakerMCP/Editor/MCPBridge/Handlers/RPGMaker/RPGMakerGameStateHandler.cs:261-303 | The quantity is read with default 1 and the state changes as `RemoveItemSpec` says |
| RPGMakerGameStateHandler.GameState.RemoveQuantity | Assets/RPGMakerMCP/Editor/MCPBridge/Handlers/RPGMaker/RPGMakerGameStateHandler.cs:286-298 | The state changes as `RemoveItemSpec` says |
| RPGMakerGameStateHandler.GameState.SetProgressFlag | Assets/RPGMakerMCP/Editor/MCPBridge/Handlers/RPGMaker/RPGMakerGameStateHandler.cs:336-377 | The state changes as `SetProgressFlagSpec` says |
| RPGMakerGameStateHandler.GameState.TeleportPlayer | Assets/RPGMakerMCP/Editor/MCPBridge/Handlers/RPGMaker/RPGMakerGameStateHandler.cs:427-474 | Coordinates default to -1 and direction to 2, and the state changes as `TeleportSpec` says |
| RPGMakerAssetsHandler.Keys | Assets/RPGMakerMCP/Editor/MCPBridge/Handlers/RPGMaker/RPGMakerAssetsHandler.cs:22-45 | The keys of a category table, in order |
| RPGMakerAssetsHandler.Dirs | Assets/RPGMakerMCP/Editor/MCPBridge/Handlers/RPGMaker/RPGMakerAssetsHandler.cs:22-45 | The directories of a category table, in order |
| RPGMakerAssetsHandler.TablesAreFunctional | Assets/RPGMakerMCP/Editor/MCPBridge/Handlers/RPGMaker/RPGMakerAssetsHandler.cs:22-45 | 13 image and 4 sound categories, with distinct keys and distinct directories |
| RPGMakerAssetsHandler.ImageKeysDistinct | Assets/RPGMakerMCP/Editor/MCPBridge/Handlers/RPGMaker/RPGMakerAssetsHandler.cs:22-37 | No two image categories share a key |
| RPGMakerAssetsHandler.ImageDirsDistinct | Assets/RPGMakerMCP/Editor/MCPBridge/Handlers/RPGMaker/RPGMakerAssetsHandler.cs:22-37 | No two image categories share a directory |
| RPGMakerAssetsHandler.Lookup | Assets/RPGMakerMCP/Editor/MCPBridge/Handlers/RPGMaker/RPGMakerAssetsHandler.cs:169-179 | A key is found iff it is in the table, and then with its own directory |
| RPGMakerAssetsHandler.Normalized | Assets/RPGMakerMCP/Editor/MCPBridge/Handlers/RPGMaker/RPGMakerAssetsHandler.cs:113 | The category is lowercased when given |
| RPGMakerAssetsHandler.CategoryDir | Assets/RPGMakerMCP/Editor/MCPBridge/Handlers/RPGMaker/RPGMakerAssetsHandler.cs:169-179 | A directory exists iff the lowercased category is a key of the table, and it is that key's directory |
| RPGMakerAssetsHandler.Locate | Assets/RPGMakerMCP/Editor/MCPBridge/Handlers/RPGMaker/RPGMakerAssetsHandler.cs:166-196 | A missing filename, an invalid category and a missing file are each rejected; success names the category directory holding the file |
| RPGMakerAssetsHandler.GetById | Assets/RPGMakerMCP/Editor/MCPBridge/Handlers/RPGMaker/RPGMakerAssetsHandler.cs:166-196 | Found iff a file name is given, the category is known and the file is in its directory, and then the entry is that file and directory; otherwise "Filename is required", the category error, or "file not found" naming the lower-cased category |
| RPGMakerAssetsHandler.Export | Assets/RPGMakerMCP/Editor/MCPBridge/Handlers/RPGMaker/RPGMakerAssetsHandler.cs:303-338 | Succeeds iff the file is located, with the path `<dir>/<file>` |
| RPGMakerAssetsHandler.DeleteRemovesFile | Assets/RPGMakerMCP/Editor/MCPBridge/Handlers/RPGMaker/RPGMakerAssetsHandler.cs:340-367 | Deletion removes the file from its directory only, and a second delete is "not found" |
| RPGMakerAssetsHandler.Import | Assets/RPGMakerMCP/Editor/MCPBridge/Handlers/RPGMaker/RPGMakerAssetsHandler.cs:259-301 | A missing source path is rejected; success requires a valid category and an existing source |
| RPGMakerAssetsHandler.StoreAddsOnce | Assets/RPGMakerMCP/Editor/MCPBridge/Handlers/RPGMaker/RPGMakerAssetsHandler.cs:285-289 | Storing a file adds it to its directory once (an existing copy is overwritten) and leaves other directories alone |
| RPGMakerAssetsHandler.ImportThenFind | Assets/RPGMakerMCP/Editor/MCPBridge/Handlers/RPGMaker/RPGMakerAssetsHandler.cs:259-301 | The stored name is the given filename or the source's file name, and the imported file can then be found in its category |
| RPGMakerAssetsHandler.Matching | Assets/RPGMakerMCP/Editor/MCPBridge/Handlers/RPGMaker/RPGMakerAssetsHandler.cs:146-151 | A file is listed iff it is at top level and has the pattern's extension |
| RPGMakerAssetsHandler.Entries | Assets/RPGMakerMCP/Editor/MCPBridge/Handlers/RPGMaker/RPGMakerAssetsHandler.cs:153-161 | One entry per file, tagged with the directory |
| RPGMakerAssetsHandler.ScanDirs | Assets/RPGMakerMCP/Editor/MCPBridge/Handlers/RPGMaker/RPGMakerAssetsHandler.cs:123-141 | A known category scans its directory only; an empty or unknown one scans all |
| RPGMakerAssetsHandler.FolderListingIsExact | Assets/RPGMakerMCP/Editor/MCPBridge/Handlers/RPGMaker/RPGMakerAssetsHandler.cs:146-164 | A folder lists exactly its top-level files with the kind's extensions |
| RPGMakerAssetsHandler.ListingIsExact | Assets/RPGMakerMCP/Editor/MCPBridge/Handlers/RPGMaker/RPGMakerAssetsHandler.cs:111-144 | An entry is listed iff its directory is scanned and exists and holds that top-level file with a supported extension |
| RPGMakerAssetsHandler.ListAssets | Assets/RPGMakerMCP/Editor/MCPBridge/Handlers/RPGMaker/RPGMakerAssetsHandler.cs:111-144 | The list operation returns exactly the listing of the scanned directories |
| RPGMakerAssetsHandler.ListingStep | Assets/RPGMakerMCP/Editor/MCPBridge/Handlers/RPGMaker/RPGMakerAssetsHandler.cs:123-141 | The listing grows one directory at a time |
| RPGMakerAssetsHandler.ListDirs | Assets/RPGMakerMCP/Editor/MCPBridge/Handlers/RPGMaker/RPGMakerAssetsHandler.cs:132-141 | The directory loop produces exactly the listing |
| RPGMakerAssetsHandler.UnknownCategoryListsAll | Assets/RPGMakerMCP/Editor/MCPBridge/Handlers/RPGMaker/RPGMakerAssetsHandler.cs:123-141 | An unknown or missing category lists every supported file of every category |
| RPGMakerAssetsHandler.KnownCategoryListsOne | Assets/RPGMakerMCP/Editor/MCPBridge/Handlers/RPGMaker/RPGMakerAssetsHandler.cs:123-131 | A known category lists only files of its own directory |
| RPGMakerAssetsHandler.VerdictFor | Assets/RPGMakerMCP/Editor/MCPBridge/Handlers/RPGMaker/RPGMakerAssetsHandler.cs:718-728 | An extension is accepted iff it is supported for the kind, and ignored iff it is `.meta` |
| RPGMakerAssetsHandler.IssuesAreUnsupported | Assets/RPGMakerMCP/Editor/MCPBridge/Handlers/RPGMaker/RPGMakerAssetsHandler.cs:718-734 | One issue per unsupported file, each naming that file |
| RPGMakerAssetsHandler.FolderCountsAddUp | Assets/RPGMakerMCP/Editor/MCPBridge/Handlers/RPGMaker/RPGMakerAssetsHandler.cs:718-734 | Valid files + issues + `.meta` files = files scanned, per folder |
| RPGMakerAssetsHandler.FolderStep | Assets/RPGMakerMCP/Editor/MCPBridge/Handlers/RPGMaker/RPGMakerAssetsHandler.cs:718-734 | Counts and issues grow one file at a time |
| RPGMakerAssetsHandler.ValidateFolder | Assets/RPGMakerMCP/Editor/MCPBridge/Handlers/RPGMaker/RPGMakerAssetsHandler.cs:718-734 | The folder loop counts exactly the accepted files and collects exactly the issues |
| RPGMakerAssetsHandler.ValidationCountsAddUp | Assets/RPGMakerMCP/Editor/MCPBridge/Handlers/RPGMaker/RPGMakerAssetsHandler.cs:705-776 | Valid + issues + `.meta` = files scanned, across folders |
| RPGMakerAssetsHandler.AcrossStep | Assets/RPGMakerMCP/Editor/MCPBridge/Handlers/RPGMaker/RPGMakerAssetsHandler.cs:711-738 | The totals grow one folder at a time |
| RPGMakerAssetsHandler.ValidateKind | Assets/RPGMakerMCP/Editor/MCPBridge/Handlers/RPGMaker/RPGMakerAssetsHandler.cs:711-768 | Validation of one kind covers all its categories |
| RPGMakerAssetsHandler.ValidateDirs | Assets/RPGMakerMCP/Editor/MCPBridge/Handlers/RPGMaker/RPGMakerAssetsHandler.cs:711-738 | The folder loop sums counts and concatenates issues |
| RPGMakerAssetsHandler.Stats | Assets/RPGMakerMCP/Editor/MCPBridge/Handlers/RPGMaker/RPGMakerAssetsHandler.cs:640-652 | One count per category, in table order, counting the valid top-level files |
| RPGMakerAssetsHandler.AssetInfo | Assets/RPGMakerMCP/Editor/MCPBridge/Handlers/RPGMaker/RPGMakerAssetsHandler.cs:635-668 | Each total is the sum of its per-category counts |
| RPGMakerAssetsHandler.CountValidAppend | Assets/RPGMakerMCP/Editor/MCPBridge/Handlers/RPGMaker/RPGMakerAssetsHandler.cs:642-652 | Valid counts add over concatenation |
| RPGMakerAssetsHandler.SumCountsTopFiles | Assets/RPGMakerMCP/Editor/MCPBridge/Handlers/RPGMaker/RPGMakerAssetsHandler.cs:640-666 | Summing the category counts counts the valid files of all categories together |
| RPGMakerAssetsHandler.TotalCountsEveryValidFile | Assets/RPGMakerMCP/Editor/MCPBridge/Handlers/RPGMaker/RPGMakerAssetsHandler.cs:640-666 | `totalCount` is the number of valid files across the kind's categories |
| RPGMakerAssetsHandler.FlatFolderCountsAgree | Assets/RPGMakerMCP/Editor/MCPBridge/Handlers/RPGMaker/RPGMakerAssetsHandler.cs:642-652 | For top-level files, the info count agrees with the validation count |
| RPGMakerAssetsHandler.CreatedKeys | Assets/RPGMakerMCP/Editor/MCPBridge/Handlers/RPGMaker/RPGMakerAssetsHandler.cs:672-694 | Organising adds exactly the missing category directories |
| RPGMakerAssetsHandler.CreatedValues | Assets/RPGMakerMCP/Editor/MCPBridge/Handlers/RPGMaker/RPGMakerAssetsHandler.cs:678-692 | New directories are empty and existing ones keep their files |
| RPGMakerAssetsHandler.MissingCountsNewKeys | Assets/RPGMakerMCP/Editor/MCPBridge/Handlers/RPGMaker/RPGMakerAssetsHandler.cs:672-694 | The counter equals the number of new directories |
| RPGMakerAssetsHandler.MissingCountsCreated | Assets/RPGMakerMCP/Editor/MCPBridge/Handlers/RPGMaker/RPGMakerAssetsHandler.cs:672-694 | The counter counts exactly the directories that did not exist |
| RPGMakerAssetsHandler.OrganizeIsIdempotent | Assets/RPGMakerMCP/Editor/MCPBridge/Handlers/RPGMaker/RPGMakerAssetsHandler.cs:670-703 | A second organise creates nothing and changes nothing |
| RPGMakerAssetsHandler.AllPresent | Assets/RPGMakerMCP/Editor/MCPBridge/Handlers/RPGMaker/RPGMakerAssetsHandler.cs:678-692 | When all directories exist nothing is created |
| RPGMakerAssetsHandler.CreateMissing | Assets/RPGMakerMCP/Editor/MCPBridge/Handlers/RPGMaker/RPGMakerAssetsHandler.cs:672-694 | The organise loop produces exactly the created folders and the counter |
| RPGMakerAssetsHandler.ChangingOperationsWait | Assets/RPGMakerMCP/Editor/MCPBridge/Handlers/RPGMaker/RPGMakerAssetsHandler.cs:47-107 | Of the 17 operations, the 8 read-only ones do not wait for compilation and the 9 changing ones do |
| RPGMakerAssetsHandler.OrganizeCreatesEveryCategory | Assets/RPGMakerMCP/Editor/MCPBridge/Handlers/RPGMaker/RPGMakerAssetsHandler.cs:670-703 | At most 17 directories are created; afterwards every category exists and existing folders are unchanged |
| RPGMakerAssetsHandler.AssetStore.constructor | Assets/RPGMakerMCP/Editor/MCPBridge/Handlers/RPGMaker/RPGMakerAssetsHandler.cs:113-114 | The store holds the given image and sound folders |
| RPGMakerAssetsHandler.AssetStore.List | Assets/RPGMakerMCP/Editor/MCPBridge/Handlers/RPGMaker/RPGMakerAssetsHandler.cs:111-144 | Returns exactly the listing of the scanned directories |
| RPGMakerAssetsHandler.AssetStore.GetAssetInfo | Assets/RPGMakerMCP/Editor/MCPBridge/Handlers/RPGMaker/RPGMakerAssetsHandler.cs:635-668 | Returns the per-kind info |
| RPGMakerAssetsHandler.AssetStore.ValidateAssets | Assets/RPGMakerMCP/Editor/MCPBridge/Handlers/RPGMaker/RPGMakerAssetsHandler.cs:705-776 | Counts and issues are those of images followed by sounds |
| RPGMakerAssetsHandler.AssetStore.OrganizeAssets | Assets/RPGMakerMCP/Editor/MCPBridge/Handlers/RPGMaker/RPGMakerAssetsHandler.cs:670-703 | Both kinds' missing directories are created, and the count is their number |
| RPGMakerAssetsHandler.AssetStore.DeleteAsset | Assets/RPGMakerMCP/Editor/MCPBridge/Handlers/RPGMaker/RPGMakerAssetsHandler.cs:340-367 | The kind's folders change as `Delete` says; the other kind is unchanged |
| RPGMakerAssetsHandler.AssetStore.ImportAsset | Assets/RPGMakerMCP/Editor/MCPBridge/Handlers/RPGMaker/RPGMakerAssetsHandler.cs:259-301 | The kind's folders change as `Import` says; the other kind is unchanged |
| ExtractOnImport.AnyContained | Packages/jp.ggg.rpgmaker.unite/Editor/ExtractOnImport.cs:33-37 | True iff some needle occurs in the text |
| ExtractOnImport.IsMatchPathOrExtension | Packages/jp.ggg.rpgmaker.unite/Editor/ExtractOnImport.cs:31-35 | True iff the name contains an overwrite filename or its extension is an overwrite extension |
| ExtractOnImport.IsMatchFullPath | Packages/jp.ggg.rpgmaker.unite/Editor/ExtractOnImport.cs:36-39 | True iff the full path contains an overwrite full path |
| ExtractOnImport.DecideCases | Packages/jp.ggg.rpgmaker.unite/Editor/ExtractOnImport.cs:131-159 | Directory entries only create a missing directory; a missing file is extracted; an existing file is overwritten iff it is not excluded and matches a rule |
| ExtractOnImport.UnpackArchive | Packages/jp.ggg.rpgmaker.unite/Editor/ExtractOnImport.cs:126-161 | The unpack loop produces exactly `Unpacked` |
| ExtractOnImport.UnpackAddsOnlyEntries | Packages/jp.ggg.rpgmaker.unite/Editor/ExtractOnImport.cs:126-161 | Nothing is removed; new files come from the archive; only file entries are written |
| ExtractOnImport.UnpackLeavesEntries | Packages/jp.ggg.rpgmaker.unite/Editor/ExtractOnImport.cs:126-161 | After unpacking, every file entry exists as a file and every directory entry as a directory |
| ExtractOnImport.UnpackLastEntry | Packages/jp.ggg.rpgmaker.unite/Editor/ExtractOnImport.cs:129-160 | The last entry leaves the earlier results in place and exists afterwards |
| ExtractOnImport.OverwriteNeedsRule | Packages/jp.ggg.rpgmaker.unite/Editor/ExtractOnImport.cs:146-158 | An existing file is rewritten only when the overwrite rule allows it |
| ExtractOnImport.MissingFilesAreWritten | Packages/jp.ggg.rpgmaker.unite/Editor/ExtractOnImport.cs:141-145 | A file entry missing from the project is always written |
| ExtractOnImport.KeptLines | Packages/jp.ggg.rpgmaker.unite/Editor/ExtractOnImport.cs:186-195 | The filtered manifest is never longer than the manifest |
| ExtractOnImport.KeptLinesMembers | Packages/jp.ggg.rpgmaker.unite/Editor/ExtractOnImport.cs:186-195 | A line is kept iff it is in the manifest and contains no removed package |
| ExtractOnImport.KeptLine | Packages/jp.ggg.rpgmaker.unite/Editor/ExtractOnImport.cs:188-192 | A single line is kept exactly when it contains no removed package |
| ExtractOnImport.KeptLinesAppend | Packages/jp.ggg.rpgmaker.unite/Editor/ExtractOnImport.cs:186-195 | Filtering two consecutive parts of a manifest gives the filtered first part followed by the filtered second part, so order and repetitions are kept |
| ExtractOnImport.FilterManifest | Packages/jp.ggg.rpgmaker.unite/Editor/ExtractOnImport.cs:186-195 | The manifest loop keeps exactly those lines |
| ExtractOnImport.ManifestFilterKeepsOrder | Packages/jp.ggg.rpgmaker.unite/Editor/ExtractOnImport.cs:186-195 | Lines with no removed package are kept unchanged in order; an empty package name removes every line |
| ExtractOnImport.ParseComponent | Packages/jp.ggg.rpgmaker.unite/Editor/ExtractOnImport.cs:107-108 | A version component is a decimal integer in the 32-bit range |
| ExtractOnImport.ParseComponents | Packages/jp.ggg.rpgmaker.unite/Editor/ExtractOnImport.cs:107-108 | All components parse, in order |
| ExtractOnImport.ParseVersion | Packages/jp.ggg.rpgmaker.unite/Editor/ExtractOnImport.cs:107-108 | A version has 2 to 4 components, each in the 32-bit range |
| ExtractOnImport.LessIrreflexive | Packages/jp.ggg.rpgmaker.unite/Editor/ExtractOnImport.cs:109 | No version is older than itself |
| ExtractOnImport.LessTransitive | Packages/jp.ggg.rpgmaker.unite/Editor/ExtractOnImport.cs:109 | Version order is transitive |
| ExtractOnImport.LessTotal | Packages/jp.ggg.rpgmaker.unite/Editor/ExtractOnImport.cs:109 | Any two versions are equal or ordered |
| ExtractOnImport.LessAsymmetric | Packages/jp.ggg.rpgmaker.unite/Editor/ExtractOnImport.cs:109 | Version order is asymmetric |
| ExtractOnImport.ThreeDigitVersion | Packages/jp.ggg.rpgmaker.unite/Editor/ExtractOnImport.cs:107-108 | `x.y.z` parses as the three digits |
| ExtractOnImport.UpdateGate | Packages/jp.ggg.rpgmaker.unite/Editor/ExtractOnImport.cs:99-110 | A bad version text is an error; otherwise the update runs iff the current version (default "1.0.0") is older than 1.2.4 |
| ExtractOnImport.UpdateGateDecisions | Packages/jp.ggg.rpgmaker.unite/Editor/ExtractOnImport.cs:101-110 | No version file updates; the same or a later version does not |
| ExtractOnImport.FreshInstallArchives | Packages/jp.ggg.rpgmaker.unite/Editor/ExtractOnImport.cs:69-96 | A fresh install unpacks project_base and masterdata_jp, plus masterdata_ch for Chinese or masterdata_en for other non-Japanese languages |
| ExtractOnImport.ScanVersionFolders | Packages/jp.ggg.rpgmaker.unite/Editor/ExtractOnImport.cs:216-236 | The scan loop produces exactly `Scanned` |
| ExtractOnImport.FolderVersions | Packages/jp.ggg.rpgmaker.unite/Editor/ExtractOnImport.cs:224 | One parsed version per directory name |
| ExtractOnImport.ScannedIsHighest | Packages/jp.ggg.rpgmaker.unite/Editor/ExtractOnImport.cs:216-236 | The scan result is the running maximum of the versions |
| ExtractOnImport.HighestIsMaximum | Packages/jp.ggg.rpgmaker.unite/Editor/ExtractOnImport.cs:222-236 | The running maximum is at least the install version and every folder version, and is one of them |
| ExtractOnImport.ScanFindsMaximum | Packages/jp.ggg.rpgmaker.unite/Editor/ExtractOnImport.cs:216-236 | `higherVersion` is the maximum of the install version and all parseable folder versions |
| ExtractOnImport.ScanDeletesOlder | Packages/jp.ggg.rpgmaker.unite/Editor/ExtractOnImport.cs:224-234 | Only versioned folders are deleted, and every one not newer than the install version is |
| ExtractOnImport.DeletedIffNotAboveRunningMax | Packages/jp.ggg.rpgmaker.unite/Editor/ExtractOnImport.cs:222-234 | Among distinct folders, one is deleted exactly when its version does not exceed the highest version seen before it in listing order, so an older folder listed before a newer one is kept |
| ExtractOnImport.CopiesWhenNewest | Packages/jp.ggg.rpgmaker.unite/Editor/ExtractOnImport.cs:248 | Zips are copied iff no folder holds a newer version than the install |
| ExtractOnImport.ZipsToCopy | Packages/jp.ggg.rpgmaker.unite/Editor/ExtractOnImport.cs:255-273 | Exactly the archive's template zips for 1.2.4 are copied |
| ExtractOnImport.ZipsFrom | Packages/jp.ggg.rpgmaker.unite/Editor/ExtractOnImport.cs:265-273 | A zip is copied iff it is in the archive and named by a template |
| ExtractOnImport.StaleZips | Packages/jp.ggg.rpgmaker.unite/Editor/ExtractOnImport.cs:238-245 | Exactly the `.zip` files are deleted |

## Left out

- File, zip and `AssetDatabase` I/O, editor refresh and the editor reboot are not modelled. Folder and file contents are values passed in and returned. File existence is membership in those values, except in `ExtractOnImport`, where the decisions take it as a parameter.
- The network side of the bridge is not modelled: websockets, asyncio tasks, sleeps and the `_monitor_connection` race. The connector's counters and flags are modelled; the `_connect_once` handshake is not. `bridge_manager` (send_command, send_ping, await_compilation, the pending-request table) is not part of this model; its outcomes are parameters.
- Clocks, GUID generation and `Path.GetFullPath` are parameters.
- Newtonsoft's `JObject.Merge`, used for partial updates, is the parameter `merge`. Its semantics are not modelled.
- Floating-point values are not modelled: the `JFloat` token, the `double` branch of `GetInt`, and audio settings.
- `DataModelMapper.ApplyPartialUpdate`, `ToDict`, `FromDict` and `ConvertValue` are not modelled, because they rely on .NET reflection.
- DataModelMapper.SetNestedValue: modelled on values; aliasing of nested dictionaries shared elsewhere is not captured.
- Text.ToLower: ASCII only. Culture-specific case mapping is not modelled.
- McpBridgeConstants.IsPathWithinProject: the prefix test ignores ASCII case only. `StringComparison.OrdinalIgnoreCase` also folds other letters, so the source accepts `/Users/josé/x` under the root `/Users/JOSÉ`, and the model rejects it.
- McpBridgeConstants.ValidateAndNormalizePath: the same ASCII-only case folding as `IsPathWithinProject`. Such a path is reported as a traversal here.
- McpBridgeConstants.ValidateAgreesWithCheck: the agreement holds for the ASCII-only folding that both checks share.
- RPGMakerGameStateHandler.ToInt32: a `JOther` token (date, GUID, URI, raw text) always fails to convert. Newtonsoft would still parse the text of a raw token.
- RPGMakerEventHandler.FileListing: an element whose `id` is an object or an array is skipped, and a `name` that is an object or an array reads as empty. C# prints such a token as its indented JSON text, which depends on property order that the model's objects do not keep.
- RPGMakerEventHandler.FileListingIsComplete: covers only elements whose `id` is a value token. Elements with an object or array `id`, which C# lists under their JSON text, are outside it.
- RPGMakerEventHandler.CopyOf: a source whose `name` is an object or an array gets the name " (Copy)". C# uses the name's JSON text followed by " (Copy)".
- RPGMakerEventHandler.FindEvent: an `id` that is an object or an array never matches. In C# it matches when the requested id equals its JSON text.
- McpBridgeConstants.MaskTokenAgrees: claimed only for tokens within the Basic Multilingual Plane. C# counts UTF-16 code units and Python counts code points. So for a token with characters outside that plane, the lengths differ, and the C# tail can split a surrogate pair. For example, with three emoji, Python prints "set" but C# prints "****" and four code units.
- McpBridgeConstants.MaskToken: counts characters as code points. C# `Length` and `Substring` count UTF-16 code units.
- EditorDataService.BaseName: the culture-sensitive `EndsWith(" (Copy)")` of C# is modelled as an ordinal suffix test.
- Backup and restore of assets, size and last-modified metadata, and pagination are not modelled.
- RPGMakerAssetsHandler.Locate, RPGMakerAssetsHandler.GetById, RPGMakerAssetsHandler.Export, RPGMakerAssetsHandler.DeleteRemovesFile: a file name is looked up as a member of the category's folder. The source builds `Path.Combine(dir, filename)`, so a rooted name or one with `..` (for example `../Faces/a.png`) reaches a file outside the category, and get, export and delete then act on it. The model answers "not found" instead.
- RPGMakerAssetsHandler.ImportThenFind, RPGMakerAssetsHandler.Import: the imported file is always stored in the category's folder under the given name. With a rooted or `..` file name the source writes outside the category.
- RPGMakerAssetsHandler.Matching, RPGMakerAssetsHandler.FolderListingIsExact, RPGMakerAssetsHandler.ListingIsExact: the search-pattern quirks of `Directory.GetFiles` are not modelled. The extension is compared case-sensitively, so `A.PNG` is not listed for `*.png`, while the source's case-insensitive file systems list it.
- RPGMakerAssetsHandler: absolute paths in issues and "root folder missing" messages are simplified to directory names.
- RPGMakerAssetsHandler.Locate: file names are compared case-sensitively. The source's `File.Exists` on Windows and macOS finds `hero.png` for `HERO.png`; the model answers "not found".
- RPGMakerAssetsHandler.GetById: inherits the case-sensitive lookup of `Locate`.
- RPGMakerAssetsHandler.Export: inherits the case-sensitive lookup of `Locate`.
- RPGMakerAssetsHandler.DeleteRemovesFile: inherits the case-sensitive lookup of `Locate`.
- RPGMakerAssetsHandler.Import: importing `a.png` into a folder that holds `A.png` adds a second file in the model. On a case-insensitive file system the source overwrites `A.png`.
- RPGMakerAssetsHandler.ImportThenFind: storage and lookup are both case-sensitive, as for `Import` and `Locate`.
- RPGMakerEventHandler.CreateCommonEventSpec: the target file is a key of the files map, compared case-sensitively. With `filename` "EventCommon", the source's `Path.Combine` and `File.Exists` reach `eventCommon.json` on a case-insensitive file system. The model creates a separate file that later lookups never scan. A target name with separators or `..` is also only a key here.
- RPGMakerEventHandler.MoveEventSpec: the target file is matched case-sensitively, as for `CreateCommonEventSpec`.
- EditorDataService.UpdateItemSpec: the update action is a total function. In the source it may throw, and then nothing is saved.
- ExtractOnImport: several steps are not modelled:
  - the removal lists;
  - the version-file writes;
  - the abort when the settings file is null;
  - the directory separators of zip entries;
  - parent-directory creation in `ExtractToFile`;
  - the swallowed manifest read failure.
- The event files are modelled as a map keyed by file stem rather than as a triple, because create and move accept any target file name.
- The other handlers (database, map, battle, system, audio) and the tool schemas are not modelled. Logging is not modelled either.

## Findings

| source | as written | input that shows it | evidently intended | confidence | as-written member | corrected member |
|---|---|---|---|---|---|---|
| Assets/RPGMakerMCP/Editor/MCPBridge/Config/McpBridgeConstants.cs:102-123 | `IsPathWithinProject` (and through it `ValidateAndNormalizePath`, lines 153-157) accepts any path whose text starts with the root, case-insensitively | root `/p/Assets`, path `/p/AssetsEvil/a.json`: accepted | accept only the root itself or paths below it at a directory separator | not executed | McpBridgeConstants.SiblingDirectoryAccepted | McpBridgeConstants.IsPathUnderRoot |
