/** The MCP server's connector to the Unity editor bridge
    (`src/bridge/bridge_connector.py`): the WebSocket address it dials, the
    authentication header it sends, the reconnect supervisor's retry/backoff
    state, the heartbeat's consecutive-failure counter and the start/stop
    flags.  Asynchronous tasks, sleeps and the WebSocket library are replaced
    by the sequence of outcomes they would produce. */
module BridgeConnector {
  import opened Wrappers
  import opened Text
  import opened Constants

  function Max(a: int, b: int): int {
    if a >= b then a else b
  }

  // ---------------------------------------------------------------------------
  // _build_ws_url
  // ---------------------------------------------------------------------------

  const DefaultHost: string := "127.0.0.1"
  const BridgePath: string := "/bridge"

  predicate Bracketed(h: string) {
    StartsWith(h, "[") && EndsWith(h, "]")
  }

  /** The host part of the URL: `None` reads as "", surrounding white space
      is stripped, an empty result becomes the loopback address, and an IPv6
      literal (any host with ':') is wrapped in brackets unless it already is. */
  function NormalizeHost(host: Option<string>): (r: string)
    ensures r != []
    ensures Strip(host.GetOr("")) == [] ==> r == DefaultHost
    ensures ':' in r ==> Bracketed(r)
    ensures var t := Strip(host.GetOr(""));
            t != [] ==> r == (if ':' in t && !Bracketed(t) then "[" + t + "]" else t)
  {
    var trimmed := Strip(host.GetOr(""));
    var h := if trimmed == [] then DefaultHost else trimmed;
    if ':' in h && !Bracketed(h) then "[" + h + "]" else h
  }

  /** The path part: prefixed with '/' unless it already starts with one. */
  function NormalizePath(path: string): (r: string)
    ensures StartsWith(r, "/")
    ensures StartsWith(path, "/") ==> r == path
    ensures !StartsWith(path, "/") ==> r == "/" + path
  {
    if StartsWith(path, "/") then path else "/" + path
  }

  /** `_build_ws_url`: the `ws` scheme, the normalised host, the port in
      decimal, then a path that starts with '/'. */
  function BuildWsUrl(host: Option<string>, port: int, path: string): (r: string)
    ensures StartsWith(r, "ws://" + NormalizeHost(host) + ":" + IntToString(port))
    ensures EndsWith(r, NormalizePath(path)) && StartsWith(NormalizePath(path), "/")
    ensures |r| == 6 + |NormalizeHost(host)| + |IntToString(port)| + |NormalizePath(path)|
  {
    "ws://" + NormalizeHost(host) + ":" + IntToString(port) + NormalizePath(path)
  }

  /** A normalised host neither starts nor ends with white space. */
  lemma NormalizedHostEnds(host: Option<string>)
    ensures var h := NormalizeHost(host); !IsPyWhitespace(h[0]) && !IsPyWhitespace(h[|h| - 1])
  {
    var t := Strip(host.GetOr(""));
    var h := NormalizeHost(host);
    if t == [] {
      assert h == DefaultHost;
      assert h[0] == '1' && h[|h| - 1] == '1';
    } else if ':' in t && !Bracketed(t) {
      assert h == "[" + t + "]";
      assert h[0] == '[' && h[|h| - 1] == ']';
    } else {
      assert h == t;
    }
  }

  /** Normalising an already normalised host changes nothing. */
  lemma NormalizeHostIdempotent(host: Option<string>)
    ensures NormalizeHost(Some(NormalizeHost(host))) == NormalizeHost(host)
  {
    NormalizedHostEnds(host);
    StripUnchanged(NormalizeHost(host));
  }

  /** Building a URL from parts that are already normalised gives the same URL. */
  lemma BuildWsUrlCanonical(host: Option<string>, port: int, path: string)
    ensures BuildWsUrl(Some(NormalizeHost(host)), port, NormalizePath(path)) == BuildWsUrl(host, port, path)
  {
    NormalizeHostIdempotent(host);
  }

  /** A missing, empty or blank host dials the loopback address. */
  lemma BlankHostIsLoopback(host: Option<string>, port: int)
    requires host.None? || forall i :: 0 <= i < |host.value| ==> IsPyWhitespace(host.value[i])
    ensures BuildWsUrl(host, port, BridgePath) == "ws://127.0.0.1:" + IntToString(port) + "/bridge"
  {
    assert Strip(host.GetOr("")) == [];
    assert NormalizeHost(host) == DefaultHost;
    assert NormalizePath(BridgePath) == BridgePath;
    assert "ws://" + DefaultHost + ":" == "ws://127.0.0.1:";
  }

  /** An IPv6 literal is bracketed exactly once. */
  lemma Ipv6HostIsBracketed(host: string)
    requires forall i :: 0 <= i < |host| ==> !IsPyWhitespace(host[i])
    requires ':' in host && !Bracketed(host)
    ensures NormalizeHost(Some(host)) == "[" + host + "]"
  {
    assert host != [];
    StripUnchanged(host);
  }

  // ---------------------------------------------------------------------------
  // _connect_once: authentication header
  // ---------------------------------------------------------------------------

  /** The extra handshake headers: none at all for a missing or empty token,
      otherwise exactly one bearer `Authorization` header. */
  function AuthHeaders(token: Option<string>): (r: Option<map<string, string>>)
    ensures r.None? <==> token.None? || token.value == ""
    ensures r.Some? ==> r.value.Keys == {"Authorization"}
    ensures r.Some? ==> r.value["Authorization"] == "Bearer " + token.value
  {
    match token
    case None => None
    case Some(t) => if t == "" then None else Some(map["Authorization" := "Bearer " + t])
  }

  // ---------------------------------------------------------------------------
  // _run: the retry/backoff supervisor
  // ---------------------------------------------------------------------------

  /** How one connection attempt ended.  `ClosedNormally` is an attempt whose
      connection was established and later closed without raising. */
  datatype AttemptOutcome = ClosedNormally | Refused | TimedOut | OsError | OtherError {
    predicate IsQuickRetry() {
      Refused? || TimedOut?
    }
  }

  /** `attempt_count` and `delay_seconds` (here in milliseconds). */
  datatype RetryState = RetryState(attempt: nat, delayMs: int)

  const InitialRetry: RetryState := RetryState(0, 0)

  function Pow2(n: nat): (r: nat)
    ensures r >= 1
  {
    if n == 0 then 1 else 2 * Pow2(n - 1)
  }

  /** The steady-tier delay: `max(MIN_RETRY_DELAY, reconnect)`. */
  function SteadyDelayMs(reconnectMs: int): (r: int)
    ensures r >= MinRetryDelayMs && r >= reconnectMs
    ensures r == MinRetryDelayMs || r == reconnectMs
  {
    Max(MinRetryDelayMs, reconnectMs)
  }

  /** One turn of the supervisor loop: count the attempt, then choose the
      next delay from how the attempt ended. */
  function Step(s: RetryState, outcome: AttemptOutcome, reconnectMs: int): RetryState {
    var n := s.attempt + 1;
    match outcome
    case ClosedNormally => RetryState(0, reconnectMs)
    case Refused | TimedOut =>
      if n <= QuickRetryAttempts then RetryState(n, BackoffBaseDelayMs * Pow2(n - 1))
      else RetryState(n, SteadyDelayMs(reconnectMs))
    case OsError | OtherError => RetryState(n, SteadyDelayMs(reconnectMs))
  }

  /** The supervisor's state after a run of attempts from a fresh start. */
  function StateAfter(outcomes: seq<AttemptOutcome>, reconnectMs: int): RetryState {
    if outcomes == [] then InitialRetry
    else Step(StateAfter(outcomes[..|outcomes| - 1], reconnectMs), outcomes[|outcomes| - 1], reconnectMs)
  }

  /** Number of failed attempts since the last connection that closed normally. */
  function FailuresSinceSuccess(outcomes: seq<AttemptOutcome>): nat {
    if outcomes == [] || outcomes[|outcomes| - 1].ClosedNormally? then 0
    else FailuresSinceSuccess(outcomes[..|outcomes| - 1]) + 1
  }

  /** `attempt_count` is exactly the number of failures since the last
      normally closed connection (a success resets it). */
  lemma {:induction false} AttemptCountIsFailureRun(outcomes: seq<AttemptOutcome>, reconnectMs: int)
    ensures StateAfter(outcomes, reconnectMs).attempt == FailuresSinceSuccess(outcomes)
  {
    if outcomes != [] {
      AttemptCountIsFailureRun(outcomes[..|outcomes| - 1], reconnectMs);
    }
  }

  /** The delay chosen after the latest attempt: the configured reconnect
      delay after a normal close; 500, 1000, 2000 ms for the first three
      refused or timed-out attempts in a row; the steady delay otherwise. */
  lemma DelayAfterAttempt(outcomes: seq<AttemptOutcome>, reconnectMs: int)
    requires outcomes != []
    ensures var last := outcomes[|outcomes| - 1];
            var n := FailuresSinceSuccess(outcomes);
            var d := StateAfter(outcomes, reconnectMs).delayMs;
            && (last.ClosedNormally? ==> d == reconnectMs)
            && (last.IsQuickRetry() && n == 1 ==> d == 500)
            && (last.IsQuickRetry() && n == 2 ==> d == 1000)
            && (last.IsQuickRetry() && n == 3 ==> d == 2000)
            && (last.IsQuickRetry() && n > 3 ==> d == Max(1000, reconnectMs))
            && (last.OsError? || last.OtherError? ==> d == Max(1000, reconnectMs))
  {
    AttemptCountIsFailureRun(outcomes[..|outcomes| - 1], reconnectMs);
  }

  /** Every delay chosen after a failure lies between 500 ms and the larger
      of 2000 ms and the steady delay; only the very first attempt runs
      without waiting unless the configured reconnect delay is not positive. */
  lemma {:induction false} DelayBounds(outcomes: seq<AttemptOutcome>, reconnectMs: int)
    ensures outcomes == [] ==> StateAfter(outcomes, reconnectMs).delayMs == 0
    ensures outcomes != [] && !outcomes[|outcomes| - 1].ClosedNormally? ==>
              500 <= StateAfter(outcomes, reconnectMs).delayMs <= Max(2000, SteadyDelayMs(reconnectMs))
  {
    if outcomes != [] {
      var prev := StateAfter(outcomes[..|outcomes| - 1], reconnectMs);
      var n := prev.attempt + 1;
      if n <= QuickRetryAttempts {
        assert n == 1 || n == 2 || n == 3;
        assert Pow2(n - 1) <= 4 by {
          if n == 3 { assert Pow2(2) == 4; }
        }
      }
    }
  }

  /** The supervisor loop.  `outcomes[k]` is how attempt `k` ends; the stop
      event is seen once they are exhausted (at the head of the loop or
      while waiting).  `waits[k]` is the delay waited before attempt `k`,
      0 meaning no wait.  No outcome ends the loop early. */
  method RunLoop(outcomes: seq<AttemptOutcome>, reconnectMs: int) returns (waits: seq<int>, last: RetryState)
    ensures |waits| == |outcomes|
    ensures forall k :: 0 <= k < |outcomes| ==>
              waits[k] == Max(0, StateAfter(outcomes[..k], reconnectMs).delayMs)
    ensures |outcomes| > 0 ==> waits[0] == 0
    ensures last == StateAfter(outcomes, reconnectMs)
  {
    var delayMs := 0;
    var attemptCount: nat := 0;
    waits := [];
    var i := 0;
    while i < |outcomes|
      invariant 0 <= i <= |outcomes|
      invariant |waits| == i
      invariant RetryState(attemptCount, delayMs) == StateAfter(outcomes[..i], reconnectMs)
      invariant forall k :: 0 <= k < i ==> waits[k] == Max(0, StateAfter(outcomes[..k], reconnectMs).delayMs)
    {
      if delayMs > 0 {
        waits := waits + [delayMs];
      } else {
        waits := waits + [0];
      }
      attemptCount := attemptCount + 1;
      match outcomes[i] {
        case ClosedNormally =>
          attemptCount := 0;
          delayMs := reconnectMs;
        case Refused | TimedOut =>
          if attemptCount <= QuickRetryAttempts {
            delayMs := BackoffBaseDelayMs * Pow2(attemptCount - 1);
          } else {
            delayMs := SteadyDelayMs(reconnectMs);
          }
        case OsError | OtherError =>
          delayMs := SteadyDelayMs(reconnectMs);
      }
      assert outcomes[..i + 1][..i] == outcomes[..i];
      i := i + 1;
    }
    assert outcomes[..|outcomes|] == outcomes;
    last := RetryState(attemptCount, delayMs);
  }

  // ---------------------------------------------------------------------------
  // _monitor_connection: heartbeat
  // ---------------------------------------------------------------------------

  /** `ping_interval`, in milliseconds: at least five seconds. */
  function PingIntervalMs(reconnectMs: int): (r: int)
    ensures r >= 5000 && r >= reconnectMs
    ensures r == 5000 || r == reconnectMs
  {
    Max(5000, reconnectMs)
  }

  /** `consecutive_failures` after a run of pings (`true` = answered). */
  function ConsecutivePingFailures(results: seq<bool>): (r: nat)
    ensures r <= |results|
  {
    if results == [] || results[|results| - 1] then 0
    else ConsecutivePingFailures(results[..|results| - 1]) + 1
  }

  /** `ping_loop`.  `results[k]` says whether ping `k` was answered (a
      timeout, a connection error and any other exception are all failures);
      the stop event is seen once the results are exhausted.  The loop sends
      pings until the failure counter reaches the limit and then closes. */
  method PingLoop(results: seq<bool>) returns (sent: nat, closedByFailures: bool)
    ensures sent <= |results|
    ensures !closedByFailures ==> sent == |results|
    ensures closedByFailures ==> ConsecutivePingFailures(results[..sent]) == MaxPingFailures
    ensures forall k :: 0 <= k <= sent && (k < sent || !closedByFailures) ==>
              ConsecutivePingFailures(results[..k]) < MaxPingFailures
  {
    var consecutiveFailures := 0;
    sent := 0;
    closedByFailures := false;
    while sent < |results|
      invariant 0 <= sent <= |results|
      invariant consecutiveFailures == ConsecutivePingFailures(results[..sent])
      invariant forall k :: 0 <= k <= sent ==> ConsecutivePingFailures(results[..k]) < MaxPingFailures
    {
      assert results[..sent + 1][..sent] == results[..sent];
      if results[sent] {
        consecutiveFailures := 0;
        sent := sent + 1;
      } else {
        consecutiveFailures := consecutiveFailures + 1;
        sent := sent + 1;
        if consecutiveFailures >= MaxPingFailures {
          closedByFailures := true;
          return;
        }
      }
    }
  }

  /** A single answered ping clears every earlier failure, so the connection
      is closed only after `MaxPingFailures` failures with no answer between them. */
  lemma {:induction false} FailureRunIsUnanswered(results: seq<bool>)
    ensures forall k :: |results| - ConsecutivePingFailures(results) <= k < |results| ==> !results[k]
    ensures ConsecutivePingFailures(results) < |results| ==>
              results[|results| - 1 - ConsecutivePingFailures(results)]
  {
    if results != [] && !results[|results| - 1] {
      var init := results[..|results| - 1];
      FailureRunIsUnanswered(init);
      assert forall k :: 0 <= k < |init| ==> init[k] == results[k];
    }
  }

  // ---------------------------------------------------------------------------
  // start / stop
  // ---------------------------------------------------------------------------

  /** `running` stands for `_task is not None`, `stopRequested` for the stop
      event being set. */
  datatype ConnectorState = ConnectorState(running: bool, intentionalClose: bool, stopRequested: bool)

  /** `start`: a no-op while a supervisor task exists; otherwise clears the
      flags and launches one. */
  function StartStep(s: ConnectorState): (r: ConnectorState)
    ensures r.running
    ensures s.running ==> r == s
    ensures !s.running ==> !r.intentionalClose && !r.stopRequested
  {
    if s.running then s else ConnectorState(true, false, false)
  }

  /** `stop`: marks the close as intentional, sets the stop event and, if a
      task exists, cancels it and waits for it. */
  function StopStep(s: ConnectorState): (r: ConnectorState)
    ensures !r.running && r.intentionalClose && r.stopRequested
  {
    ConnectorState(false, true, true)
  }

  /** The end of `_run` (its `finally`): the task slot is cleared. */
  function RunEndStep(s: ConnectorState): (r: ConnectorState)
    ensures !r.running
    ensures r.intentionalClose == s.intentionalClose && r.stopRequested == s.stopRequested
  {
    s.(running := false)
  }

  lemma StartIdempotent(s: ConnectorState)
    ensures StartStep(StartStep(s)) == StartStep(s)
  {
  }

  lemma StopIdempotent(s: ConnectorState)
    ensures StopStep(StopStep(s)) == StopStep(s)
  {
  }

  /** After a stop, a start launches a fresh supervisor with cleared flags. */
  lemma StartAfterStop(s: ConnectorState)
    ensures StartStep(StopStep(s)) == ConnectorState(true, false, false)
  {
  }

  /** The connector object with its three pieces of mutable state. */
  class Connector {
    var running: bool
    var intentionalClose: bool
    var stopRequested: bool

    constructor()
      ensures State() == ConnectorState(false, false, false)
    {
      running := false;
      intentionalClose := false;
      stopRequested := false;
    }

    function State(): ConnectorState
      reads this
    {
      ConnectorState(running, intentionalClose, stopRequested)
    }

    method Start()
      modifies this
      ensures State() == StartStep(old(State()))
    {
      if running {
        return;
      }
      intentionalClose := false;
      stopRequested := false;
      running := true;
    }

    method Stop()
      modifies this
      ensures State() == StopStep(old(State()))
    {
      intentionalClose := true;
      stopRequested := true;
      if !running {
        return;
      }
      running := false;
    }

    /** The supervisor task body: runs the retry loop over the attempts'
        outcomes, then clears the task slot. */
    method Run(outcomes: seq<AttemptOutcome>, reconnectMs: int) returns (waits: seq<int>)
      modifies this
      ensures State() == RunEndStep(old(State()))
      ensures |waits| == |outcomes|
      ensures forall k :: 0 <= k < |outcomes| ==>
                waits[k] == Max(0, StateAfter(outcomes[..k], reconnectMs).delayMs)
    {
      var last;
      waits, last := RunLoop(outcomes, reconnectMs);
      running := false;
    }
  }
}
