/**
  One call of the WebSocket client (class `Call` in client/websocket/index.ts).

  The class is modelled as an immutable record and every method or socket
  event handler as a function from the record to a `Step`: the next record,
  the observable effects in the order the code performs them, and the error
  the method throws, if any. Socket I/O, hooks and the promise returned by
  `connect()` appear only as effects; `JSON.parse` is a parameter.
 */
module ClientCall {
  import opened Wrappers
  import opened Json
  import Proto
  import CloseWatchdog

  /** Normal-closure status code, section 7.4.1 of RFC 6455. */
  const NormalClosure: int := 1000

  const ErrAlreadyConnected: string := "connect() may only be called once"
  const ErrNotConnected: string := "websocket not connected"
  /** What `ws.send` throws on a socket still in CONNECTING (the wording of
      the `ws` package; a browser throws an InvalidStateError instead). */
  const ErrNotOpen: string := "WebSocket is not open: readyState 0 (CONNECTING)"

  const MsgUnparsable: string := "protocol error: unable to parse reason field"
  const MsgNotObject: string := "protocol error: reason field is not an object"
  const MsgSuccessNotBool: string := "protocol error: success field not a boolean"
  const MsgNoMessage: string := "protocol error: data field does not contain a message"

  /** The endpoint: its URL and an optional bearer token. */
  datatype Remote = Remote(url: string, token: Option<string>)

  /** The call to perform: a process name and its string parameters. */
  datatype CallSpec = CallSpec(call: string, params: seq<string>)

  /** The value `connect()` resolves with. `data` of a success is any JSON
      value, or undefined when the reason object has no `data` field. */
  datatype CallResult = Success(data: Option<Json>) | Failure(message: string)

  // ---------------------------------------------------------------------------
  // Result interpretation on close

  predicate IsDiagnostic(m: string) {
    m == MsgUnparsable || m == MsgNotObject || m == MsgSuccessNotBool || m == MsgNoMessage
  }

  /** The `onclose` ladder: the first matching rule decides the result. */
  function InterpretClose(code: int, reason: string, parse: string -> Option<Json>): (r: CallResult)
    // an abnormal close fails with the raw reason, which is not parsed
    ensures code != NormalClosure ==> r == Failure(reason)
    ensures code == NormalClosure && parse(reason).None? ==> r == Failure(MsgUnparsable)
    ensures code == NormalClosure && parse(reason).Some? && !IsObjectLike(parse(reason).value) ==>
      r == Failure(MsgNotObject)
    ensures code == NormalClosure && parse(reason).Some? && IsObjectLike(parse(reason).value) ==>
      var v := parse(reason).value;
      match Property(v, "success")
      case Some(JBool(true)) => r == Success(Property(v, "data"))
      case Some(JBool(false)) =>
        (match Property(v, "data")
         case Some(JString(m)) => r == Failure(m)
         case _ => r == Failure(MsgNoMessage))
      case _ => r == Failure(MsgSuccessNotBool)
  {
    if code != NormalClosure then Failure(reason)
    else
      match parse(reason)
      case None => Failure(MsgUnparsable)
      case Some(v) =>
        if !IsObjectLike(v) then Failure(MsgNotObject)
        else
          match Property(v, "success")
          case Some(JBool(success)) =>
            if !success then
              match Property(v, "data")
              case Some(JString(m)) => Failure(m)
              case _ => Failure(MsgNoMessage)
            else Success(Property(v, "data"))
          case _ => Failure(MsgSuccessNotBool)
  }

  /** A call succeeds exactly when the server closed normally with a reason
      that parses to an object whose `success` field is `true`. */
  lemma SuccessIff(code: int, reason: string, parse: string -> Option<Json>)
    ensures InterpretClose(code, reason, parse).Success? <==>
      code == NormalClosure && parse(reason).Some? &&
      Property(parse(reason).value, "success") == Some(JBool(true))
  {
  }

  /** Every failure message is either the raw reason of an abnormal close, one
      of the four fixed diagnostics, or the string `data` of a `success:false`
      object; and a diagnostic is only produced on a normal close. */
  lemma FailureOrigin(code: int, reason: string, parse: string -> Option<Json>)
    ensures var r := InterpretClose(code, reason, parse);
      r.Failure? ==>
        (code != NormalClosure && r.message == reason) ||
        (code == NormalClosure && IsDiagnostic(r.message)) ||
        (code == NormalClosure && parse(reason).Some? &&
         Property(parse(reason).value, "success") == Some(JBool(false)) &&
         Property(parse(reason).value, "data") == Some(JString(r.message)))
  {
  }

  // ---------------------------------------------------------------------------
  // Wire messages the client sends

  function StringsJson(xs: seq<string>): (r: seq<Json>)
    ensures |r| == |xs|
    ensures forall i :: 0 <= i < |xs| ==> r[i] == JString(xs[i])
  {
    if |xs| == 0 then [] else [JString(xs[0])] + StringsJson(xs[1..])
  }

  /** `JSON.stringify(this.call)`, the first message, as a JSON value. */
  function SpecJson(spec: CallSpec): Json {
    JObject(map["call" := JString(spec.call), "params" := JArray(StringsJson(spec.params))])
  }

  /** `{ signal: name }`, as a JSON value. */
  function SignalJson(name: string): Json {
    JObject(map["signal" := JString(name)])
  }

  /** The call specification the client sends reads back, through
      `json.Unmarshal` into a CallMessage, as the same name and parameters. */
  lemma ReadSpecJson(spec: CallSpec)
    ensures Proto.ReadCallMessage(SpecJson(spec)) == Some(Proto.CallMessage(spec.call, spec.params))
  {
    var j := SpecJson(spec);
    var items := StringsJson(spec.params);
    assert Property(j, "call") == Some(JString(spec.call));
    assert Property(j, "params") == Some(JArray(items));
    assert forall i :: 0 <= i < |items| ==> Proto.StringOrNull(items[i]);
    var back := Proto.DecodeStrings(Some(JArray(items))).value;
    assert back == spec.params;
  }

  /** Every signal the client sends reads back, through `json.Unmarshal`
      into a SignalMessage, as the same token. */
  lemma ReadSignalJson(name: string)
    ensures Proto.ReadSignal(SignalJson(name)) == Some(name)
  {
  }

  // ---------------------------------------------------------------------------
  // The call record and its effects

  /** Which optional hooks the caller assigned. `afterCall` is declared by the
      class but no code path invokes it. */
  datatype Hooks = Hooks(beforeCall: bool, onConnect: bool, afterCall: bool, onError: bool, onLogLine: bool)

  /** A message sent on the socket: a text frame, or a binary frame holding
      the UTF-8 of `JSON.stringify(json)`. */
  datatype Payload = TextPayload(text: string) | BinaryPayload(json: Json)

  /** A message received from the socket: a string, or any other data. */
  datatype Incoming = TextMessage(text: string) | NonTextMessage

  /** How the promise of `connect()` is settled. */
  datatype Settlement = Resolved(result: CallResult) | Rejected(error: string)

  datatype Effect =
    | OpenSocket(url: string, protocol: string, authorization: Option<string>)
    | ArmWatchdog
    | Send(payload: Payload)
    | CloseSocket
    | Terminate
    | RunBeforeCall
    | RunOnConnect
    | RunOnLogLine(line: string)
    | RunOnError(error: string)
    | Settle(settlement: Settlement)

  /** The instance: its construction arguments, the `connected` guard, whether
      `this.ws` is non-null, the watchdog, and the promise state (the first
      settlement; later `resolve`/`reject` calls have no effect). */
  datatype Call = Call(
    remote: Remote,
    spec: CallSpec,
    hooks: Hooks,
    connected: bool,
    socket: bool,
    watchdog: CloseWatchdog.Watchdog,
    outcome: Option<Settlement>)

  /** One method call or event: next record, effects in order, and the error
      thrown. For the `async` method `connect()` that error is the one its
      returned promise rejects with; the other methods throw synchronously. */
  datatype Step = Step(call: Call, effects: seq<Effect>, thrown: Option<string>)

  function NewCall(remote: Remote, spec: CallSpec, hooks: Hooks): Call {
    Call(remote, spec, hooks, false, false, CloseWatchdog.Idle, None)
  }

  /** The Authorization header sent when the remote carries a token. */
  function AuthHeader(remote: Remote): (r: Option<string>)
    ensures remote.token.None? <==> r.None?
    ensures remote.token.Some? ==> r == Some("Bearer " + remote.token.value)
  {
    match remote.token
    case Some(t) => Some("Bearer " + t)
    case None => None
  }

  /** A settlement is recorded only if the promise is still pending. */
  function Settled(c: Call, s: Settlement): (r: Call)
    ensures r.outcome == if c.outcome.None? then Some(s) else c.outcome
    ensures r.(outcome := c.outcome) == c
  {
    if c.outcome.None? then c.(outcome := Some(s)) else c
  }

  /** `connect()`: the guard is checked and set before the socket exists, so
      the promise of any second call is rejected, even while the first is
      still in flight. `refused` is the error the `WebSocket` constructor
      throws, if it throws: inside the promise executor that rejects the
      promise, while the guard stays set and the handle stays null. */
  function Connect(c: Call, refused: Option<string>): (s: Step)
    ensures c.connected ==> s == Step(c, [], Some(ErrAlreadyConnected))
    ensures !c.connected && refused.None? ==>
      s.thrown.None? && s.call == c.(connected := true, socket := true) &&
      s.effects == [OpenSocket(c.remote.url, Proto.Subprotocol, AuthHeader(c.remote))]
    ensures !c.connected && refused.Some? ==>
      s.thrown.None? && s.call.connected && s.call.socket == c.socket &&
      s.call == Settled(c.(connected := true), Rejected(refused.value)) &&
      s.effects == [Settle(Rejected(refused.value))]
  {
    if c.connected then Step(c, [], Some(ErrAlreadyConnected))
    else match refused
      case None =>
        Step(c.(connected := true, socket := true),
             [OpenSocket(c.remote.url, Proto.Subprotocol, AuthHeader(c.remote))], None)
      case Some(err) =>
        Step(Settled(c.(connected := true), Rejected(err)), [Settle(Rejected(err))], None)
  }

  function HookIf(present: bool, e: Effect): seq<Effect> {
    if present then [e] else []
  }

  /** `ws.onopen`: arm the watchdog, run `beforeCall`, send the call
      specification (on the socket the handler captured), run `onConnect`. */
  function OnOpen(c: Call): (s: Step)
    ensures s.thrown.None?
    ensures s.call == c.(watchdog := CloseWatchdog.Arm(c.watchdog))
    ensures |s.effects| == 2 + (if c.hooks.beforeCall then 1 else 0) + (if c.hooks.onConnect then 1 else 0)
    ensures s.effects[0] == ArmWatchdog
    ensures c.hooks.beforeCall ==> s.effects[1] == RunBeforeCall
    ensures var k := if c.hooks.beforeCall then 2 else 1;
      s.effects[k] == Send(BinaryPayload(SpecJson(c.spec))) &&
      (c.hooks.onConnect ==> s.effects[k + 1] == RunOnConnect)
    // exactly one message is sent, and it is the call specification
    ensures forall i :: 0 <= i < |s.effects| && s.effects[i].Send? ==>
      s.effects[i] == Send(BinaryPayload(SpecJson(c.spec)))
  {
    Step(c.(watchdog := CloseWatchdog.Arm(c.watchdog)),
         [ArmWatchdog] + HookIf(c.hooks.beforeCall, RunBeforeCall) +
         [Send(BinaryPayload(SpecJson(c.spec)))] + HookIf(c.hooks.onConnect, RunOnConnect),
         None)
  }

  /** `ws.onmessage`: only string data reaches `onLogLine`; anything else is
      dropped without error. */
  function OnMessage(c: Call, m: Incoming): (s: Step)
    ensures s.call == c && s.thrown.None?
    ensures s.effects != [] <==> m.TextMessage? && c.hooks.onLogLine
    ensures s.effects != [] ==> s.effects == [RunOnLogLine(m.text)]
  {
    match m
    case TextMessage(line) => Step(c, HookIf(c.hooks.onLogLine, RunOnLogLine(line)), None)
    case NonTextMessage => Step(c, [], None)
  }

  /** The private `close()`: throws when the handle is already null,
      otherwise closes the socket and clears the handle. */
  function Close(c: Call): (s: Step)
    ensures !c.socket ==> s == Step(c, [], Some(ErrNotConnected))
    ensures c.socket ==> s == Step(c.(socket := false), [CloseSocket], None)
  {
    if !c.socket then Step(c, [], Some(ErrNotConnected))
    else Step(c.(socket := false), [CloseSocket], None)
  }

  /** `ws.onerror`: release the handle, run `onError`, reject. When the handle
      is already null, `close()` throws and the rest of the handler is skipped. */
  function OnError(c: Call, err: string): (s: Step)
    ensures !c.socket ==> s == Step(c, [], Some(ErrNotConnected))
    ensures c.socket ==>
      s.thrown.None? && !s.call.socket &&
      s.call == Settled(c.(socket := false), Rejected(err)) &&
      s.effects == [CloseSocket] + HookIf(c.hooks.onError, RunOnError(err)) + [Settle(Rejected(err))]
  {
    var closed := Close(c);
    if closed.thrown.Some? then closed
    else Step(Settled(closed.call, Rejected(err)),
              closed.effects + HookIf(c.hooks.onError, RunOnError(err)) + [Settle(Rejected(err))],
              None)
  }

  /** `ws.onclose`: resolve with the interpreted result. Only a success goes
      on to `close()`; a failure leaves the handle as it was. */
  function OnClose(c: Call, code: int, reason: string, parse: string -> Option<Json>): (s: Step)
    ensures var r := InterpretClose(code, reason, parse);
      |s.effects| >= 1 && s.effects[0] == Settle(Resolved(r)) &&
      s.call.outcome == Settled(c, Resolved(r)).outcome &&
      (r.Failure? ==> s == Step(Settled(c, Resolved(r)), [Settle(Resolved(r))], None)) &&
      (r.Success? ==>
        (!s.call.socket &&
         (c.socket ==> s.effects == [Settle(Resolved(r)), CloseSocket] && s.thrown.None?) &&
         (!c.socket ==> s.thrown == Some(ErrNotConnected))))
  {
    var r := InterpretClose(code, reason, parse);
    var settled := Settled(c, Resolved(r));
    if r.Failure? then Step(settled, [Settle(Resolved(r))], None)
    else
      var closed := Close(settled);
      Step(closed.call, [Settle(Resolved(r))] + closed.effects, closed.thrown)
  }

  /** A send-type operation on a socket in `state`. A null handle throws
      "websocket not connected"; otherwise `ws.send` throws on a socket still
      CONNECTING, drops the message without error on one CLOSING or CLOSED,
      and sends it on one OPEN. */
  function SendOn(c: Call, p: Payload, state: CloseWatchdog.ReadyState): (s: Step) {
    if !c.socket then Step(c, [], Some(ErrNotConnected))
    else match state
      case Connecting => Step(c, [], Some(ErrNotOpen))
      case Open => Step(c, [Send(p)], None)
      case _ => Step(c, [], None)
  }

  /** `sendText(text)`: the raw text as a text frame. */
  function SendText(c: Call, text: string, state: CloseWatchdog.ReadyState): (s: Step)
    ensures s.call == c
    ensures !c.socket <==> s.thrown == Some(ErrNotConnected)
    ensures c.socket && state == CloseWatchdog.Connecting <==> s.thrown == Some(ErrNotOpen)
    ensures s.thrown.None? <==> c.socket && state != CloseWatchdog.Connecting
    ensures s.effects != [] <==> c.socket && state == CloseWatchdog.Open
    ensures s.effects != [] ==> s.effects == [Send(TextPayload(text))]
  {
    SendOn(c, TextPayload(text), state)
  }

  /** `cancel()` (signal "cancel") and `closeInput()` (signal "close"): the
      signal message as a binary frame. */
  function SendSignal(c: Call, signal: string, state: CloseWatchdog.ReadyState): (s: Step)
    ensures s.call == c
    ensures !c.socket <==> s.thrown == Some(ErrNotConnected)
    ensures c.socket && state == CloseWatchdog.Connecting <==> s.thrown == Some(ErrNotOpen)
    ensures s.thrown.None? <==> c.socket && state != CloseWatchdog.Connecting
    ensures s.effects != [] <==> c.socket && state == CloseWatchdog.Open
    ensures s.effects != [] ==> s.effects == [Send(BinaryPayload(SignalJson(signal)))]
  {
    SendOn(c, BinaryPayload(SignalJson(signal)), state)
  }

  /** One poll interval of the watchdog, observing the socket in `state`. */
  function Tick(c: Call, state: CloseWatchdog.ReadyState): (s: Step)
    ensures s.thrown.None?
    ensures s.call == c.(watchdog := s.call.watchdog)
    ensures s.effects == [] || s.effects == [Terminate]
    ensures s.effects == [Terminate] <==>
      c.watchdog.Waiting? && c.watchdog.elapsed + CloseWatchdog.PollInterval >= CloseWatchdog.CloseTimeout &&
      state == CloseWatchdog.Closing
  {
    var t := CloseWatchdog.Tick(c.watchdog, CloseWatchdog.Observation(c.socket, state));
    Step(c.(watchdog := t.next), if t.terminate then [Terminate] else [], None)
  }

  // ---------------------------------------------------------------------------
  // Runs of events

  datatype Event =
    | DoConnect(refused: Option<string>)
    | Opened
    | Received(m: Incoming)
    | Errored(err: string)
    | Closed(code: int, reason: string)
    | DoSendText(text: string, state: CloseWatchdog.ReadyState)
    | DoCancel(state: CloseWatchdog.ReadyState)
    | DoCloseInput(state: CloseWatchdog.ReadyState)
    | Polled(state: CloseWatchdog.ReadyState)

  function Apply(c: Call, e: Event, parse: string -> Option<Json>): Step {
    match e
    case DoConnect(refused) => Connect(c, refused)
    case Opened => OnOpen(c)
    case Received(m) => OnMessage(c, m)
    case Errored(err) => OnError(c, err)
    case Closed(code, reason) => OnClose(c, code, reason, parse)
    case DoSendText(text, state) => SendText(c, text, state)
    case DoCancel(state) => SendSignal(c, Proto.SignalCancel, state)
    case DoCloseInput(state) => SendSignal(c, Proto.SignalClose, state)
    case Polled(state) => Tick(c, state)
  }

  /** The record after a sequence of events (thrown errors end only the
      method or handler that threw). */
  function Run(c: Call, events: seq<Event>, parse: string -> Option<Json>): Call
    decreases |events|
  {
    if |events| == 0 then c else Run(Apply(c, events[0], parse).call, events[1..], parse)
  }

  /** Every step keeps the guard set and never reopens a released handle. */
  lemma ApplyMonotone(c: Call, e: Event, parse: string -> Option<Json>)
    requires c.connected
    ensures Apply(c, e, parse).call.connected
    ensures !c.socket ==> !Apply(c, e, parse).call.socket
    ensures c.outcome.Some? ==> Apply(c, e, parse).call.outcome == c.outcome
  {
  }

  /** Once `connect()` has been called, a later `connect()` throws, whatever
      happened in between. */
  lemma {:induction false} SecondConnectFails(c: Call, events: seq<Event>, parse: string -> Option<Json>)
    requires c.connected
    ensures Run(c, events, parse).connected
    ensures forall refused :: Connect(Run(c, events, parse), refused).thrown == Some(ErrAlreadyConnected)
    decreases |events|
  {
    if |events| > 0 {
      ApplyMonotone(c, events[0], parse);
      SecondConnectFails(Apply(c, events[0], parse).call, events[1..], parse);
    }
  }

  /** Once the handle has been released it stays released, so every
      send-type operation keeps failing with "websocket not connected". */
  lemma {:induction false} ReleasedStaysReleased(c: Call, events: seq<Event>, parse: string -> Option<Json>,
                                                   state: CloseWatchdog.ReadyState)
    requires c.connected && !c.socket
    ensures !Run(c, events, parse).socket
    ensures SendText(Run(c, events, parse), "", state).thrown == Some(ErrNotConnected)
    ensures SendSignal(Run(c, events, parse), Proto.SignalCancel, state).thrown == Some(ErrNotConnected)
    ensures SendSignal(Run(c, events, parse), Proto.SignalClose, state).thrown == Some(ErrNotConnected)
    decreases |events|
  {
    if |events| > 0 {
      ApplyMonotone(c, events[0], parse);
      ReleasedStaysReleased(Apply(c, events[0], parse).call, events[1..], parse, state);
    }
  }

  /** The promise settles once: the first settlement survives every later
      event, so a close after an error cannot change the outcome. */
  lemma {:induction false} FirstSettlementWins(c: Call, events: seq<Event>, parse: string -> Option<Json>)
    requires c.connected && c.outcome.Some?
    ensures Run(c, events, parse).outcome == c.outcome
    decreases |events|
  {
    if |events| > 0 {
      ApplyMonotone(c, events[0], parse);
      FirstSettlementWins(Apply(c, events[0], parse).call, events[1..], parse);
    }
  }

  /** Before `connect()` no send-type operation can succeed. */
  lemma SendsFailBeforeConnect(remote: Remote, spec: CallSpec, hooks: Hooks, state: CloseWatchdog.ReadyState)
    ensures SendText(NewCall(remote, spec, hooks), "", state).thrown == Some(ErrNotConnected)
    ensures SendSignal(NewCall(remote, spec, hooks), Proto.SignalCancel, state).thrown == Some(ErrNotConnected)
    ensures SendSignal(NewCall(remote, spec, hooks), Proto.SignalClose, state).thrown == Some(ErrNotConnected)
  {
  }

  /** When the `WebSocket` constructor throws, the call is rejected with its
      error for good: no later event changes the outcome, no socket is ever
      opened, and every send keeps failing with "websocket not connected". */
  lemma RefusedConnectRejects(remote: Remote, spec: CallSpec, hooks: Hooks, err: string,
                              events: seq<Event>, parse: string -> Option<Json>)
    ensures var c := Run(NewCall(remote, spec, hooks), [DoConnect(Some(err))] + events, parse);
      c.outcome == Some(Rejected(err)) && !c.socket && c.connected
  {
    var c0 := NewCall(remote, spec, hooks);
    var c1 := Connect(c0, Some(err)).call;
    assert ([DoConnect(Some(err))] + events)[1..] == events;
    assert Run(c0, [DoConnect(Some(err))] + events, parse) == Run(c1, events, parse);
    FirstSettlementWins(c1, events, parse);
    ReleasedStaysReleased(c1, events, parse, CloseWatchdog.Open);
    SecondConnectFails(c1, events, parse);
  }
}
