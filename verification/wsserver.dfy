/**
  The WebSocket server of internal/wsserver/serve.go: the subprotocol check,
  the call phase, and the close frame chosen when `Serve` returns. Its reader
  loop and input pump are the shared ones of FrameDispatch.

  `proto.CloseReasonFailed` and `proto.MessageWrongSubprotocol`, which this
  file uses, are not declared in proto/proto.go; their values are parameters.
 */
module WsServer {
  import opened Wrappers
  import opened Proto
  import FrameDispatch

  /** Close codes of section 7.4.1 of RFC 6455. */
  const NormalClosure: int := 1000
  const PolicyViolation: int := 1008

  /** The constants this file takes from `proto` without the snapshot
      declaring them. */
  datatype Constants = Constants(closeReasonFailed: int, wrongSubprotocolMessage: string)

  datatype CloseFrame = CloseFrame(code: int, reason: string)

  /** How one connection ends: the close frame sent, the error `Serve`
      returns, and whether the call phase ran at all. */
  datatype Outcome = Outcome(close: CloseFrame, returned: Option<Error>, served: bool)

  /** The call phase: as in ws_impl, except that a handler error is returned
      as it is. */
  function CallPhase<P>(arrival: Option<FrameDispatch.Item>,
                        decodeCall: FrameDispatch.Item -> Option<CallMessage>,
                        get: CallMessage -> Result<P, Error>): (r: Result<P, Error>)
    ensures arrival.None? ==> r == Err(Timeout)
    ensures arrival.Some? && decodeCall(arrival.value).None? ==> r == Err(ProtocolError)
    ensures arrival.Some? && decodeCall(arrival.value).Some? ==> r == get(decodeCall(arrival.value).value)
  {
    match arrival
    case None => Err(Timeout)
    case Some(body) =>
      match decodeCall(body)
      case None => Err(ProtocolError)
      case Some(call) => get(call)
  }

  /** The close decision of the deferred function: a nil error closes
      normally with an empty reason, any other error with the failure code
      and the error's text. */
  function CloseFor(k: Constants, err: Option<Error>): (f: CloseFrame)
    ensures err.None? ==> f == CloseFrame(NormalClosure, "")
    ensures err.Some? ==> f == CloseFrame(k.closeReasonFailed, Message(err.value))
  {
    match err
    case None => CloseFrame(NormalClosure, "")
    case Some(e) => CloseFrame(k.closeReasonFailed, Message(e))
  }

  /** `Serve`. A wrong subprotocol closes with a policy violation and does
      nothing else. Otherwise the error is that of the call phase or of the
      process; a recovered panic replaces it; the close frame follows. */
  function Serve<P>(k: Constants, subprotocol: string,
                    arrival: Option<FrameDispatch.Item>,
                    decodeCall: FrameDispatch.Item -> Option<CallMessage>,
                    get: CallMessage -> Result<P, Error>,
                    run: Option<Error>,
                    panicked: Option<string>): (o: Outcome)
    ensures subprotocol != Subprotocol ==>
      o == Outcome(CloseFrame(PolicyViolation, k.wrongSubprotocolMessage),
                   Some(Failed(k.wrongSubprotocolMessage)), false)
    ensures subprotocol == Subprotocol ==> o.served && o.close == CloseFor(k, o.returned)
    ensures subprotocol == Subprotocol && panicked.Some? ==> o.returned == Some(Recovered(panicked.value))
    ensures subprotocol == Subprotocol && panicked.None? ==>
      o.returned == (match CallPhase(arrival, decodeCall, get)
                     case Err(e) => Some(e)
                     case Ok(_) => run)
  {
    if subprotocol != Subprotocol then
      Outcome(CloseFrame(PolicyViolation, k.wrongSubprotocolMessage),
              Some(Failed(k.wrongSubprotocolMessage)), false)
    else
      var err :=
        match CallPhase(arrival, decodeCall, get)
        case Err(e) => Some(e)
        case Ok(_) => run;
      var final := if panicked.Some? then Some(Recovered(panicked.value)) else err;
      Outcome(CloseFor(k, final), final, true)
  }

  /** The connection closes normally exactly when the call arrived, decoded,
      was found, ran without error and did not panic (given that the failure
      code differs from the normal one). */
  lemma NormalCloseIff<P>(k: Constants, arrival: Option<FrameDispatch.Item>,
                          decodeCall: FrameDispatch.Item -> Option<CallMessage>,
                          get: CallMessage -> Result<P, Error>,
                          run: Option<Error>, panicked: Option<string>)
    requires k.closeReasonFailed != NormalClosure
    ensures Serve(k, Subprotocol, arrival, decodeCall, get, run, panicked).close.code == NormalClosure <==>
      panicked.None? && arrival.Some? && decodeCall(arrival.value).Some? &&
      get(decodeCall(arrival.value).value).Ok? && run.None?
  {
  }

  /** When neither a call nor the end of the connection comes within
      `readCallTimeout`, the connection closes with the failure code and the
      text "timeout expired". */
  lemma TimeoutClose<P>(k: Constants, decodeCall: FrameDispatch.Item -> Option<CallMessage>,
                        get: CallMessage -> Result<P, Error>, run: Option<Error>)
    ensures Serve(k, Subprotocol, None, decodeCall, get, run, None).close ==
      CloseFrame(k.closeReasonFailed, "timeout expired")
  {
  }

  /** A connection that ends before its first binary frame closes with the
      failure code and "protocol error occurred", not with a timeout. */
  lemma GoneBeforeCallClose<P>(k: Constants, pre: seq<FrameDispatch.Event>, rest: seq<FrameDispatch.Event>,
                               decode: FrameDispatch.SignalDecoder,
                               decodeCall: FrameDispatch.Item -> Option<CallMessage>,
                               get: CallMessage -> Result<P, Error>, run: Option<Error>)
    requires forall i :: 0 <= i < |pre| ==> pre[i].Received? && !pre[i].frame.kind.BinaryFrame?
    requires decodeCall(None).None?
    ensures var events := pre + [FrameDispatch.ConnectionDone] + rest;
      var arrival := FrameDispatch.Run(FrameDispatch.Start, events, decode).initial;
      Serve(k, Subprotocol, arrival, decodeCall, get, run, None).close ==
        CloseFrame(k.closeReasonFailed, "protocol error occurred")
  {
    var events := pre + [FrameDispatch.ConnectionDone] + rest;
    FrameDispatch.FirstBinaryIsTheCall(FrameDispatch.Start, events, decode);
    FrameDispatch.GoneBeforeCall(pre, rest);
  }
}
