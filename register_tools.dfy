/** The MCP server's tool dispatcher (`src/tools/register_tools.py`): the
    public tool name is mapped to the bridge's command name, the bridge
    timeout is derived from the arguments, and the compilation-await tool is
    special-cased.  The bridge itself (`bridge_manager`) is not part of this
    model: each call takes the connection flag and the outcome of the one
    bridge request it makes as parameters, and reports the request it made. */
module RegisterTools {
  import opened Wrappers
  import opened Json

  /** `tool_name_map`, including the eight RPG Maker tools of `RPGMAKER_TOOL_MAP`. */
  const ToolNameMap: map<string, string> := map[
    "unity_ping" := "ping",
    "unity_compilation_await" := "compilationAwait",
    "rpgmaker_database" := "rpgMakerDatabase",
    "rpgmaker_map" := "rpgMakerMap",
    "rpgmaker_event" := "rpgMakerEvent",
    "rpgmaker_battle" := "rpgMakerBattle",
    "rpgmaker_system" := "rpgMakerSystem",
    "rpgmaker_assets" := "rpgMakerAssets",
    "rpgmaker_gamestate" := "rpgMakerGameState",
    "rpgmaker_audio" := "rpgMakerAudio"
  ]

  const CompilationAwaitTool: string := "unity_compilation_await"
  const DefaultBridgeTimeoutMs: int := 45_000
  const DefaultCompilationTimeoutSeconds: int := 60

  /** The bridge command names, mapped back to the public tool names. */
  const BridgeCommandTool: map<string, string> := map[
    "ping" := "unity_ping",
    "compilationAwait" := "unity_compilation_await",
    "rpgMakerDatabase" := "rpgmaker_database",
    "rpgMakerMap" := "rpgmaker_map",
    "rpgMakerEvent" := "rpgmaker_event",
    "rpgMakerBattle" := "rpgmaker_battle",
    "rpgMakerSystem" := "rpgmaker_system",
    "rpgMakerAssets" := "rpgmaker_assets",
    "rpgMakerGameState" := "rpgmaker_gamestate",
    "rpgMakerAudio" := "rpgmaker_audio"
  ]

  /** No two public tools reach the same bridge command: the map has a
      left inverse. */
  lemma ToolNameMapIsInjective()
    ensures forall a :: a in ToolNameMap ==>
              ToolNameMap[a] in BridgeCommandTool && BridgeCommandTool[ToolNameMap[a]] == a
    ensures forall a, b :: a in ToolNameMap && b in ToolNameMap && ToolNameMap[a] == ToolNameMap[b] ==> a == b
  {
  }

  /** What a call can fail with.  `TypeError` is Python's own error for
      arithmetic on a `timeoutSeconds` that is not a number. */
  datatype ToolError =
    | UnknownTool(name: string)
    | NotConnected
    | TypeError
    | BridgeFailed(tool: string, cause: string)
    | Raised(cause: string)
  {
    function Message(): string {
      match this
      case UnknownTool(name) => "Unknown tool: " + name
      case NotConnected =>
        "Unity bridge is not connected. In the Unity Editor choose Tools/MCP Assistant to start the bridge."
      case TypeError => "unsupported operand type(s) for +"
      case BridgeFailed(tool, cause) => "Unity bridge tool \"" + tool + "\" failed: " + cause
      case Raised(cause) => cause
    }
  }

  /** How the one bridge request a call makes ends: a reply, a timeout, or
      any other exception, each with the text `str(exc)` gives. */
  datatype BridgeOutcome = Replied(reply: Obj) | TimedOut(text: string) | Failed(text: string)

  /** The request a call hands to the bridge. */
  datatype BridgeRequest =
    | SendCommand(tool: string, payload: map<string, Obj>, timeoutMs: int)
    | AwaitCompilation(timeoutSeconds: Obj)

  /** The single text content a successful call returns: either a text reply
      passed through or a value rendered with `as_pretty_json`. */
  datatype Content = PlainText(text: string) | PrettyJson(value: Obj)

  datatype CallResult = CallResult(sent: Option<BridgeRequest>, result: Result<Content, ToolError>)

  /** Whole seconds in milliseconds. */
  function SecondsToMs(seconds: int): (r: int)
    ensures r % 1000 == 0 && r / 1000 == seconds
  {
    seconds * 1000
  }

  /** The bridge timeout of `_call_bridge_tool`: 45 s by default, otherwise the
      Unity-side timeout plus 20 s, in milliseconds.  A Python `bool` counts
      as 0 or 1; any other non-integer is a `TypeError`. */
  function BridgeTimeoutMs(payload: map<string, Obj>): (r: Result<int, ToolError>)
    ensures "timeoutSeconds" !in payload ==> r == Ok(DefaultBridgeTimeoutMs)
    ensures "timeoutSeconds" in payload && payload["timeoutSeconds"].Int32? ==>
              r == Ok(SecondsToMs(payload["timeoutSeconds"].i + 20))
    ensures "timeoutSeconds" in payload && payload["timeoutSeconds"].Int64? ==>
              r == Ok(SecondsToMs(payload["timeoutSeconds"].l + 20))
    ensures r.Ok? ==> r.value % 1000 == 0
  {
    if "timeoutSeconds" !in payload then Ok(DefaultBridgeTimeoutMs)
    else
      match payload["timeoutSeconds"]
      case Int32(n) => Ok(SecondsToMs(n + 20))
      case Int64(n) => Ok(SecondsToMs(n + 20))
      case Boolean(b) => Ok(SecondsToMs((if b then 1 else 0) + 20))
      case _ => Err(TypeError)
  }

  /** `_call_bridge_tool`: refuses to run while disconnected, sends the
      command with the computed timeout, and wraps any failure with the
      tool's name. */
  function CallBridgeTool(connected: bool, tool: string, payload: map<string, Obj>, outcome: BridgeOutcome): (r: CallResult)
    ensures !connected ==> r == CallResult(None, Err(NotConnected))
    ensures r.sent.Some? <==> connected && BridgeTimeoutMs(payload).Ok?
    ensures r.sent.Some? ==> r.sent == Some(SendCommand(tool, payload, BridgeTimeoutMs(payload).value))
    ensures connected && BridgeTimeoutMs(payload).Err? ==> r == CallResult(None, Err(BridgeTimeoutMs(payload).error))
    ensures r.sent.Some? && !outcome.Replied? ==> r.result == Err(BridgeFailed(tool, outcome.text))
    ensures r.sent.Some? && outcome.Replied? && outcome.reply.Str? ==> r.result == Ok(PlainText(outcome.reply.s))
    ensures r.sent.Some? && outcome.Replied? && !outcome.reply.Str? ==> r.result == Ok(PrettyJson(outcome.reply))
  {
    if !connected then CallResult(None, Err(NotConnected))
    else
      match BridgeTimeoutMs(payload)
      case Err(e) => CallResult(None, Err(e))
      case Ok(timeoutMs) =>
        var request := SendCommand(tool, payload, timeoutMs);
        match outcome
        case Replied(reply) =>
          CallResult(Some(request), Ok(if reply.Str? then PlainText(reply.s) else PrettyJson(reply)))
        case TimedOut(text) => CallResult(Some(request), Err(BridgeFailed(tool, text)))
        case Failed(text) => CallResult(Some(request), Err(BridgeFailed(tool, text)))
  }

  /** The result object that replaces a compilation timeout. */
  function TimedOutResult(text: string): Obj {
    Dict(map["success" := Boolean(false), "timedOut" := Boolean(true), "error" := Str(text)])
  }

  /** `call_tool`.  `arguments` is `None` for a call without arguments. */
  function CallTool(connected: bool, name: string, arguments: Option<map<string, Obj>>, outcome: BridgeOutcome): (r: CallResult)
    ensures name !in ToolNameMap ==> r == CallResult(None, Err(UnknownTool(name)))
    ensures name in ToolNameMap && !connected ==> r == CallResult(None, Err(NotConnected))
    ensures name in ToolNameMap && name != CompilationAwaitTool ==>
              r == CallBridgeTool(connected, ToolNameMap[name], arguments.GetOr(map[]), outcome)
    ensures name == CompilationAwaitTool && connected ==> r.sent.Some? && r.sent.value.AwaitCompilation?
  {
    var payload := arguments.GetOr(map[]);
    if name !in ToolNameMap then CallResult(None, Err(UnknownTool(name)))
    else if name == CompilationAwaitTool then
      if !connected then CallResult(None, Err(NotConnected))
      else
        var request := AwaitCompilation(if "timeoutSeconds" in payload then payload["timeoutSeconds"]
                                        else Int32(DefaultCompilationTimeoutSeconds));
        match outcome
        case Replied(result) => CallResult(Some(request), Ok(PrettyJson(result)))
        case TimedOut(text) => CallResult(Some(request), Ok(PrettyJson(TimedOutResult(text))))
        case Failed(text) => CallResult(Some(request), Err(Raised(text)))
    else CallBridgeTool(connected, ToolNameMap[name], payload, outcome)
  }

  /** An unknown tool name is rejected before anything else happens. */
  lemma UnknownToolSendsNothing(connected: bool, name: string, arguments: Option<map<string, Obj>>, outcome: BridgeOutcome)
    requires name !in ToolNameMap
    ensures CallTool(connected, name, arguments, outcome) == CallResult(None, Err(UnknownTool(name)))
    ensures CallTool(connected, name, arguments, outcome).result.error.Message() == "Unknown tool: " + name
  {
  }

  /** A known tool on a disconnected bridge is refused before any request. */
  lemma DisconnectedSendsNothing(name: string, arguments: Option<map<string, Obj>>, outcome: BridgeOutcome)
    requires name in ToolNameMap
    ensures CallTool(false, name, arguments, outcome) == CallResult(None, Err(NotConnected))
  {
  }

  /** Every request that reaches the bridge names the mapped bridge command,
      and a command request carries the arguments and the computed timeout. */
  lemma RequestsUseMappedName(connected: bool, name: string, arguments: Option<map<string, Obj>>, outcome: BridgeOutcome)
    ensures var r := CallTool(connected, name, arguments, outcome);
            r.sent.Some? ==> name in ToolNameMap && connected
    ensures var r := CallTool(connected, name, arguments, outcome);
            r.sent.Some? && r.sent.value.SendCommand? ==>
              && name != CompilationAwaitTool
              && r.sent.value.tool == ToolNameMap[name]
              && r.sent.value.payload == arguments.GetOr(map[])
              && r.sent.value.timeoutMs == BridgeTimeoutMs(arguments.GetOr(map[])).value
    ensures var r := CallTool(connected, name, arguments, outcome);
            r.sent.Some? && r.sent.value.AwaitCompilation? ==> name == CompilationAwaitTool
  {
  }

  /** Compilation await waits 60 s unless told otherwise, and a timeout is
      reported as an unsuccessful, timed-out result instead of an error. */
  lemma CompilationAwaitTimeouts(arguments: Option<map<string, Obj>>, text: string)
    ensures var r := CallTool(true, CompilationAwaitTool, arguments, TimedOut(text));
            && r.result.Ok?
            && r.result.value == PrettyJson(Dict(map["success" := Boolean(false), "timedOut" := Boolean(true), "error" := Str(text)]))
    ensures (arguments.None? || "timeoutSeconds" !in arguments.value) ==>
              CallTool(true, CompilationAwaitTool, arguments, TimedOut(text)).sent == Some(AwaitCompilation(Int32(60)))
  {
  }

  /** A known tool on a connected bridge sends exactly one command under its
      bridge name, and the reply comes back as the call's single text
      content: a text reply as it is, anything else as pretty JSON. */
  lemma KnownToolReplyIsReturned(name: string, arguments: Option<map<string, Obj>>, reply: Obj)
    requires name in ToolNameMap && name != CompilationAwaitTool
    requires BridgeTimeoutMs(arguments.GetOr(map[])).Ok?
    ensures var payload := arguments.GetOr(map[]);
            var r := CallTool(true, name, arguments, Replied(reply));
            && r.sent == Some(SendCommand(ToolNameMap[name], payload, BridgeTimeoutMs(payload).value))
            && r.result == Ok(if reply.Str? then PlainText(reply.s) else PrettyJson(reply))
  {
  }

  /** A failed bridge command surfaces with the bridge tool's name in its message. */
  lemma FailureNamesTheTool(name: string, arguments: Option<map<string, Obj>>, text: string)
    requires name in ToolNameMap && name != CompilationAwaitTool
    requires BridgeTimeoutMs(arguments.GetOr(map[])).Ok?
    ensures CallTool(true, name, arguments, Failed(text)).result.Err?
    ensures CallTool(true, name, arguments, Failed(text)).result.error.Message()
              == "Unity bridge tool \"" + ToolNameMap[name] + "\" failed: " + text
  {
  }
}
