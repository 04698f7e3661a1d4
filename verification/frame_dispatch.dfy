/**
  The server's reader loop and input pump. internal/ws_impl/serve.go and
  internal/wsserver/serve.go contain the same loop and the same pump, line for
  line; both servers use this one model of them.

  The reader goroutine becomes a step function over its two flags, the
  cancellation cause of the call context, and the contents of its two
  channels. The pump becomes a function from the channel contents to the
  bytes written into the input pipe.
 */
module FrameDispatch {
  import opened Wrappers
  import opened Proto

  newtype byte = x: int | 0 <= x < 256
  type Bytes = seq<byte>

  /** A channel item: a body, or the nil end-of-input marker. */
  type Item = Option<Bytes>

  datatype FrameKind = TextFrame | BinaryFrame | OtherFrame(opcode: int)

  /** A frame read from the connection; a `None` body is a nil slice. */
  datatype Frame = Frame(kind: FrameKind, body: Option<Bytes>)

  /** What the reader's `select` receives: a frame, or the connection's
      context being done. */
  datatype Event = Received(frame: Frame) | ConnectionDone

  /** What the reader does with one event. */
  datatype Action =
    | EnqueueInput(body: Bytes)       // a text body into textMessages
    | DeliverCall(call: Item)         // the first binary body into initialMessage
    | EnqueueEnd                      // the nil marker into textMessages
    | CancelWith(cause: Error)        // cancel(cause) on the call context
    | Ignore
    | Finish                          // cancel(ClientGone) and leave the loop,
                                      // closing both channels

  /** Reader state. `cause` is the call context's cancellation cause: as with
      `context.WithCancelCause`, only the first cancel sets it. `initial` is
      what the call phase receives from `initialMessage`: the first binary
      body, or, once the reader has left its loop without one, the nil item
      a closed channel yields. */
  datatype Reader = Reader(
    hadInitial: bool,
    hadCancelBefore: bool,
    cause: Option<Error>,
    input: seq<Item>,
    initial: Option<Item>,
    stopped: bool)

  const Start: Reader := Reader(false, false, None, [], None, false)

  /** `json.Unmarshal` into a SignalMessage: `None` when decoding fails,
      otherwise the `signal` field ("" when absent). */
  type SignalDecoder = Bytes -> Option<string>

  /** The dispatch rule for one event. */
  function Classify(r: Reader, e: Event, decode: SignalDecoder): (a: Action)
    ensures r.stopped ==> a == Ignore
    ensures !r.stopped && e.ConnectionDone? ==> a == Finish
    // a text frame always becomes input, nil replaced by empty: never the marker
    ensures !r.stopped && e.Received? && e.frame.kind.TextFrame? ==>
      a == EnqueueInput(e.frame.body.GetOr([]))
    // frames neither text nor binary are ignored
    ensures !r.stopped && e.Received? && e.frame.kind.OtherFrame? ==> a == Ignore
    // the first binary frame is the call
    ensures !r.stopped && e.Received? && e.frame.kind.BinaryFrame? && !r.hadInitial ==>
      a == DeliverCall(e.frame.body)
    // every later binary frame is a signal
    ensures !r.stopped && e.Received? && e.frame.kind.BinaryFrame? && r.hadInitial ==>
      var s := decode(e.frame.body.GetOr([]));
      a == (if s == Some(SignalClose) then EnqueueEnd
            else if s == Some(SignalCancel) then (if r.hadCancelBefore then EnqueueEnd else CancelWith(ClientRequest))
            else CancelWith(ProtocolError))
    // the marker only ever comes from a signal
    ensures a == EnqueueEnd ==> e.Received? && e.frame.kind.BinaryFrame? && r.hadInitial
  {
    if r.stopped then Ignore
    else
      match e
      case ConnectionDone => Finish
      case Received(Frame(kind, body)) =>
        match kind
        case TextFrame => EnqueueInput(body.GetOr([]))
        case OtherFrame(_) => Ignore
        case BinaryFrame =>
          if !r.hadInitial then DeliverCall(body)
          else
            match decode(body.GetOr([]))
            case None => CancelWith(ProtocolError)
            case Some(signal) =>
              if signal == SignalClose then EnqueueEnd
              else if signal == SignalCancel && !r.hadCancelBefore then CancelWith(ClientRequest)
              else if signal == SignalCancel then EnqueueEnd
              else CancelWith(ProtocolError)
  }

  /** `cancel(cause)` of a context made by `context.WithCancelCause`. */
  function Cancelled(cause: Option<Error>, c: Error): (r: Option<Error>)
    ensures cause.Some? ==> r == cause
    ensures cause.None? ==> r == Some(c)
  {
    if cause.None? then Some(c) else cause
  }

  /** Carries out an action. */
  function Perform(r: Reader, a: Action): Reader {
    match a
    case EnqueueInput(body) => r.(input := r.input + [Some(body)])
    case DeliverCall(call) => r.(initial := Some(call), hadInitial := true)
    case EnqueueEnd => r.(input := r.input + [None])
    case CancelWith(c) =>
      r.(cause := Cancelled(r.cause, c), hadCancelBefore := r.hadCancelBefore || c == ClientRequest)
    case Ignore => r
    case Finish =>
      r.(cause := Cancelled(r.cause, ClientGone), stopped := true,
         initial := if r.hadInitial then r.initial else Some(None))
  }

  /** One iteration of the reader loop. */
  function Step(r: Reader, e: Event, decode: SignalDecoder): (r': Reader)
    // ignored events leave the state unchanged
    ensures Classify(r, e, decode) == Ignore ==> r' == r
    // the first cause wins
    ensures r.cause.Some? ==> r'.cause == r.cause
    // the flags and the call only ever go from unset to set
    ensures r.hadInitial ==> r'.hadInitial && r'.initial == r.initial
    ensures r.hadCancelBefore ==> r'.hadCancelBefore
    ensures r.stopped ==> r' == r
    // once the reader leaves its loop, the call phase has an item to receive
    ensures !r.stopped && e.ConnectionDone? ==> r'.stopped
    ensures !r.stopped && e.ConnectionDone? && !r.hadInitial ==> r'.initial == Some(None)
    // the input queue only grows at its end
    ensures |r'.input| >= |r.input| && r'.input[..|r.input|] == r.input
  {
    Perform(r, Classify(r, e, decode))
  }

  function Run(r: Reader, events: seq<Event>, decode: SignalDecoder): Reader
    decreases |events|
  {
    if |events| == 0 then r else Run(Step(r, events[0], decode), events[1..], decode)
  }

  /** What `initialMessage` yields after `events`: the body of the first
      binary frame that arrives before the connection is done; the nil item
      of the closed channel when the connection is done first; nothing yet
      otherwise. */
  function FirstBinary(events: seq<Event>): Option<Item>
    decreases |events|
  {
    if |events| == 0 then None
    else if events[0].ConnectionDone? then Some(None)
    else if events[0].frame.kind.BinaryFrame? then Some(events[0].frame.body)
    else FirstBinary(events[1..])
  }

  /** A binary frame arrives before the connection is done. */
  predicate CallBeforeEnd(events: seq<Event>)
    decreases |events|
  {
    |events| > 0 && !events[0].ConnectionDone? &&
    (events[0].frame.kind.BinaryFrame? || CallBeforeEnd(events[1..]))
  }

  lemma {:induction false} RunKeepsCall(r: Reader, events: seq<Event>, decode: SignalDecoder)
    requires r.hadInitial
    ensures Run(r, events, decode).initial == r.initial
    ensures Run(r, events, decode).hadInitial
    decreases |events|
  {
    if |events| > 0 {
      RunKeepsCall(Step(r, events[0], decode), events[1..], decode);
    }
  }

  lemma {:induction false} RunWhileStopped(r: Reader, events: seq<Event>, decode: SignalDecoder)
    requires r.stopped
    ensures Run(r, events, decode) == r
    decreases |events|
  {
    if |events| > 0 {
      RunWhileStopped(Step(r, events[0], decode), events[1..], decode);
    }
  }

  /** The call phase receives the first binary frame, delivered at most
      once (later binary frames never replace it), or the closed channel's
      nil item when the connection ends first. */
  lemma {:induction false} FirstBinaryIsTheCall(r: Reader, events: seq<Event>, decode: SignalDecoder)
    requires !r.hadInitial && r.initial.None? && !r.stopped
    ensures Run(r, events, decode).initial == FirstBinary(events)
    ensures Run(r, events, decode).hadInitial <==> CallBeforeEnd(events)
    decreases |events|
  {
    if |events| > 0 {
      var r1 := Step(r, events[0], decode);
      if events[0].ConnectionDone? {
        RunWhileStopped(r1, events[1..], decode);
      } else if events[0].frame.kind.BinaryFrame? {
        RunKeepsCall(r1, events[1..], decode);
      } else {
        FirstBinaryIsTheCall(r1, events[1..], decode);
      }
    }
  }

  /** When the connection ends before any binary frame, `initialMessage`
      yields the nil item of the closed channel. */
  lemma {:induction false} GoneBeforeCall(pre: seq<Event>, rest: seq<Event>)
    requires forall i :: 0 <= i < |pre| ==> pre[i].Received? && !pre[i].frame.kind.BinaryFrame?
    ensures FirstBinary(pre + [ConnectionDone] + rest) == Some(None)
    ensures !CallBeforeEnd(pre + [ConnectionDone] + rest)
    decreases |pre|
  {
    var all := pre + [ConnectionDone] + rest;
    if |pre| == 0 {
      assert all[0] == ConnectionDone;
    } else {
      assert all[0] == pre[0];
      assert all[1..] == pre[1..] + [ConnectionDone] + rest;
      GoneBeforeCall(pre[1..], rest);
    }
  }

  /** Once the context has a cause, no later event changes it. */
  lemma {:induction false} CauseIsFinal(r: Reader, events: seq<Event>, decode: SignalDecoder)
    requires r.cause.Some?
    ensures Run(r, events, decode).cause == r.cause
    decreases |events|
  {
    if |events| > 0 {
      CauseIsFinal(Step(r, events[0], decode), events[1..], decode);
    }
  }

  /** The input a sequence of text frames contributes: each body, nil as empty. */
  function TextInputs(events: seq<Event>): (items: seq<Item>)
    ensures |items| <= |events|
    ensures forall i :: 0 <= i < |items| ==> items[i].Some?
  {
    if |events| == 0 then []
    else if events[0].Received? && events[0].frame.kind.TextFrame? then
      [Some(events[0].frame.body.GetOr([]))] + TextInputs(events[1..])
    else TextInputs(events[1..])
  }

  predicate IsText(e: Event) {
    e.Received? && e.frame.kind.TextFrame?
  }

  /** Text frames only append their bodies to the input, in order, and never
      the end-of-input marker. */
  lemma {:induction false} TextFramesOnlyAppend(r: Reader, events: seq<Event>, decode: SignalDecoder)
    requires !r.stopped
    requires forall i :: 0 <= i < |events| ==> IsText(events[i])
    ensures Run(r, events, decode) == r.(input := r.input + TextInputs(events))
    decreases |events|
  {
    if |events| > 0 {
      var r1 := Step(r, events[0], decode);
      assert r1 == r.(input := r.input + [Some(events[0].frame.body.GetOr([]))]);
      TextFramesOnlyAppend(r1, events[1..], decode);
      assert r.input + [Some(events[0].frame.body.GetOr([]))] + TextInputs(events[1..]) ==
             r.input + TextInputs(events);
    }
  }

  /** A binary frame carrying the given signal. */
  function SignalFrame(body: Bytes): Event {
    Received(Frame(BinaryFrame, Some(body)))
  }

  /** After the call, the first cancel signal cancels the context with
      "client requested cancellation" and does not touch the input; a second
      cancel ends the input. */
  lemma CancelTwice(r: Reader, body: Bytes, decode: SignalDecoder)
    requires r.hadInitial && !r.hadCancelBefore && !r.stopped && r.cause.None?
    requires decode(body) == Some(SignalCancel)
    ensures var r1 := Step(r, SignalFrame(body), decode);
      r1.cause == Some(ClientRequest) && r1.input == r.input && r1.hadCancelBefore
    ensures var r2 := Run(r, [SignalFrame(body), SignalFrame(body)], decode);
      r2.cause == Some(ClientRequest) && r2.input == r.input + [None]
  {
    var r1 := Step(r, SignalFrame(body), decode);
    var two := [SignalFrame(body), SignalFrame(body)];
    assert two[1..] == [SignalFrame(body)];
    assert Run(r, two, decode) == Run(r1, [SignalFrame(body)], decode);
    assert Run(r1, [SignalFrame(body)], decode) == Step(r1, SignalFrame(body), decode);
  }

  // ---------------------------------------------------------------------------
  // The input pump

  /** The result of the pump: the bodies written into the pipe, in order,
      and the number of channel items drained after the marker. The pipe's
      writer is closed in every case. */
  datatype PumpResult = PumpResult(written: seq<Bytes>, drained: nat)

  /** Writes bodies up to the first nil marker, then discards the rest. */
  function Pump(items: seq<Item>): (p: PumpResult)
    ensures |p.written| <= |items|
    ensures forall i :: 0 <= i < |p.written| ==> items[i] == Some(p.written[i])
    ensures |p.written| < |items| ==> items[|p.written|] == None
    ensures p.drained == if |p.written| < |items| then |items| - |p.written| - 1 else 0
    decreases |items|
  {
    if |items| == 0 then PumpResult([], 0)
    else
      match items[0]
      case None => PumpResult([], |items| - 1)
      case Some(body) =>
        var rest := Pump(items[1..]);
        PumpResult([body] + rest.written, rest.drained)
  }

  /** Input that reaches the pipe is exactly the text received before the
      marker: a close signal after some text frames ends input after them. */
  lemma TextThenClose(r: Reader, texts: seq<Event>, close: Bytes, decode: SignalDecoder)
    requires r.hadInitial && !r.stopped && r.input == []
    requires forall i :: 0 <= i < |texts| ==> IsText(texts[i])
    requires decode(close) == Some(SignalClose)
    ensures var final := Run(r, texts + [SignalFrame(close)], decode);
      final.input == TextInputs(texts) + [None] &&
      |Pump(final.input).written| == |TextInputs(texts)| &&
      Pump(final.input).drained == 0
  {
    RunAppend(r, texts, [SignalFrame(close)], decode);
    TextFramesOnlyAppend(r, texts, decode);
    var mid := Run(r, texts, decode);
    assert Run(mid, [SignalFrame(close)], decode) == Step(mid, SignalFrame(close), decode);
    PumpStopsAtEnd(TextInputs(texts));
  }

  /** Bodies followed by the end of input are all written, and nothing is
      left to drain. */
  lemma PumpStopsAtEnd(bodies: seq<Item>)
    requires forall i :: 0 <= i < |bodies| ==> bodies[i].Some?
    ensures |Pump(bodies + [None]).written| == |bodies| && Pump(bodies + [None]).drained == 0
  {
    var items := bodies + [None];
    assert forall k :: 0 <= k < |bodies| ==> items[k] == bodies[k];
    assert items[|bodies|] == None;
  }

  lemma {:induction false} RunAppend(r: Reader, a: seq<Event>, b: seq<Event>, decode: SignalDecoder)
    ensures Run(r, a + b, decode) == Run(Run(r, a, decode), b, decode)
    decreases |a|
  {
    if |a| == 0 {
      assert a + b == b;
    }
    if |a| > 0 {
      assert (a + b)[0] == a[0];
      assert (a + b)[1..] == a[1..] + b;
      RunAppend(Step(r, a[0], decode), a[1..], b, decode);
    }
  }
}
