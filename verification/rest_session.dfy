/**
  `Session` of internal/rest_impl/session.go: one process run for the REST
  server, from its call message to its result.

  The process itself is not modelled. Its effect on the session is an `Exit`
  (how `run` ended) and the text its output buffer renders. The input pipe is
  open or closed; bytes written while it is open are delivered in order. The
  cancellation cause records the first cause the session's context was
  cancelled with.
 */
module RestSession {
  import opened Wrappers
  import opened Json
  import Proto

  datatype Stage = Init | Running | Finished

  /** Stages only move forward. */
  function Rank(s: Stage): nat {
    match s
    case Init => 0
    case Running => 1
    case Finished => 2
  }

  const MinMaxLines: int := 1000

  /** `SessionOpts.SetDefaults`: fewer than `MinMaxLines` output lines become
      `MinMaxLines`; any larger bound is kept. */
  function SetDefaults(maxLines: int): (r: int)
    ensures r >= MinMaxLines
    ensures maxLines >= MinMaxLines ==> r == maxLines
    ensures maxLines < MinMaxLines ==> r == MinMaxLines
  {
    if maxLines < MinMaxLines then MinMaxLines else maxLines
  }

  datatype Session = Session(
    stage: Stage,
    maxLines: int,
    call: Option<Proto.CallMessage>,
    cause: Option<Proto.Error>,
    inputOpen: bool,
    input: string,
    buffer: string,
    result: Proto.ProtoResult)

  /** A session as it is stored before `Init`: Go's zero value, whose
      result is a nil value with no error. */
  function Zero(): Session {
    Session(Init, 0, None, None, false, "", "", Proto.ProtoResult(JNull, None))
  }

  /** `Init`: the output bound after defaults, a fresh context with no cause
      yet, and a fresh open input pipe. The stage is not touched. */
  function Initialise(s: Session, maxLines: int): (r: Session)
    ensures r.stage == s.stage && r.maxLines >= MinMaxLines && r.maxLines == SetDefaults(maxLines)
    ensures r.inputOpen && r.input == "" && r.cause.None?
    ensures r.call == s.call && r.buffer == s.buffer && r.result == s.result
  {
    s.(maxLines := SetDefaults(maxLines), cause := None, inputOpen := true, input := "")
  }

  /** `Start`: only a session in the initial stage starts; it then runs the
      call. Any other session is left alone and `false` is returned. */
  function Start(s: Session, call: Proto.CallMessage): (r: (Session, bool))
    ensures r.1 <==> s.stage == Init
    ensures r.1 ==> r.0 == s.(stage := Running, call := Some(call))
    ensures !r.1 ==> r.0 == s
  {
    if s.stage != Init then (s, false) else (s.(stage := Running, call := Some(call)), true)
  }

  /** How `run` ended: the process returned a value and an error; the handler
      could not produce the process; the process panicked with a value; or
      its goroutine exited without returning (`runtime.Goexit`). */
  datatype Exit =
    | Returned(value: Json, err: Option<Proto.Error>)
    | GetFailed(e: Proto.Error)
    | Panicked(panicValue: string)
    | Exited

  const PanicText: string := "panic() in process"

  /** The result `run` records for an exit. */
  function Outcome(x: Exit): (r: Proto.ProtoResult)
    ensures x.Returned? ==> r == Proto.ProtoResult(x.value, x.err)
    ensures !x.Returned? ==> r.value == JNull && r.reason.Some?
    ensures x.GetFailed? ==> r.reason.value == Proto.Wrapped("failed to get process", x.e)
    ensures x.Panicked? ==> r.reason.value == Proto.Recovered(x.panicValue)
    ensures x.Exited? ==> r.reason.value == Proto.Failed(PanicText)
  {
    match x
    case Returned(v, e) => Proto.ProtoResult(v, e)
    case GetFailed(e) => Proto.ProtoResult(JNull, Some(Proto.Wrapped("failed to get process", e)))
    case Panicked(p) => Proto.ProtoResult(JNull, Some(Proto.Recovered(p)))
    case Exited => Proto.ProtoResult(JNull, Some(Proto.Failed(PanicText)))
  }

  /** `cancel(cause)` of a context: only the first cause sticks. */
  function Cancel(s: Session, e: Proto.Error): (r: Session)
    ensures r.cause.Some? && (s.cause.Some? ==> r.cause == s.cause) && (s.cause.None? ==> r.cause == Some(e))
    ensures r.(cause := s.cause) == s
  {
    if s.cause.None? then s.(cause := Some(e)) else s
  }

  /** The end of `run`: the input is closed, the context is cancelled with
      "handler has returned", and the outcome is recorded. */
  function Finish(s: Session, x: Exit): (r: Session)
    requires s.stage == Running
    ensures r.stage == Finished && r.result == Outcome(x) && !r.inputOpen
    ensures r.cause.Some? && (s.cause.Some? ==> r.cause == s.cause)
    ensures r.call == s.call && r.buffer == s.buffer && r.input == s.input && r.maxLines == s.maxLines
  {
    Cancel(s.(inputOpen := false), Proto.HandlerReturn).(result := Outcome(x), stage := Finished)
  }

  /** The process's output buffer now renders `rendered`; only a running
      process writes to it. */
  function Emit(s: Session, rendered: string): (r: Session)
    ensures s.stage == Running ==> r == s.(buffer := rendered)
    ensures s.stage != Running ==> r == s
  {
    if s.stage == Running then s.(buffer := rendered) else s
  }

  /** The text `io.ErrClosedPipe` carries. */
  const ClosedPipe: string := "io: read/write on closed pipe"

  /** `Write`: the bytes reach the process while the input is open;
      afterwards every write fails. */
  function Write(s: Session, data: string): (r: (Session, Result<nat, Proto.Error>))
    ensures s.inputOpen ==> r == (s.(input := s.input + data), Ok(|data|))
    ensures !s.inputOpen ==> r == (s, Err(Proto.Wrapped("failed to write input", Proto.Failed(ClosedPipe))))
  {
    if s.inputOpen then (s.(input := s.input + data), Ok(|data|))
    else (s, Err(Proto.Wrapped("failed to write input", Proto.Failed(ClosedPipe))))
  }

  /** `CloseInput`: closing either end of an `io.Pipe` never fails, so this
      always succeeds and may be repeated. */
  function CloseInput(s: Session): (r: (Session, Option<Proto.Error>))
    ensures r.1.None? && !r.0.inputOpen && r.0.(inputOpen := s.inputOpen) == s
  {
    (s.(inputOpen := false), None)
  }

  /** `CloseWith`: the context is cancelled with `e` (unless an earlier cause
      stands) and the input is closed; then it waits for the process to be
      done. A running process finishes with `x`. A session never started is
      never done, so the call does not return (`None`). */
  function CloseWith(s: Session, e: Proto.Error, x: Exit): (r: Option<Session>)
    ensures r.None? <==> s.stage == Init
    ensures r.Some? ==> r.value.stage == Finished && !r.value.inputOpen
    ensures r.Some? && s.cause.None? ==> r.value.cause == Some(e)
    ensures r.Some? && s.cause.Some? ==> r.value.cause == s.cause
    ensures r.Some? && s.stage == Finished ==> r.value.result == s.result
    ensures r.Some? && s.stage == Running ==> r.value.result == Outcome(x)
  {
    var c := CloseInput(Cancel(s, e)).0;
    match s.stage
    case Init => None
    case Running => Some(Finish(c, x))
    case Finished => Some(c)
  }

  /** `Stage()`: (running, started). As written, `started` holds exactly
      when the process has finished. */
  function StageFlags(s: Session): (r: (bool, bool))
    ensures r.0 <==> s.stage == Running
    ensures r.1 <==> s.stage == Finished
    ensures !(r.0 && r.1)
  {
    match s.stage
    case Init => (false, false)
    case Running => (true, false)
    case Finished => (false, true)
  }

  /** `Status`: what the status endpoint shows. */
  datatype StatusView = StatusView(buffer: string, result: Option<Proto.ProtoResult>)

  /** `Status()`: nothing before the start; the output so far and no result
      while running; the output and the result once finished. */
  function Status(s: Session): (r: StatusView)
    ensures s.stage == Init ==> r == StatusView("", None)
    ensures s.stage != Init ==> r.buffer == s.buffer
    ensures r.result.Some? <==> s.stage == Finished
    ensures r.result.Some? ==> r.result.value == s.result
  {
    match s.stage
    case Init => StatusView("", None)
    case Running => StatusView(s.buffer, None)
    case Finished => StatusView(s.buffer, Some(s.result))
  }

  /** The `"buffer":<buffer>,` member, left out when the buffer is empty
      (`omitempty`); `quote` is the JSON string encoder. */
  function BufferMember(buffer: string, quote: string -> string): (r: string)
    ensures r == "" <==> buffer == ""
  {
    if buffer == "" then "" else "\"buffer\":" + quote(buffer) + ","
  }

  const ResultKey: string := "\"result\":"

  /** The text after `"result":` and before the closing brace of a status
      document whose buffer is `buffer`. */
  function ResultPart(out: string, buffer: string, quote: string -> string): string {
    var from := 1 + |BufferMember(buffer, quote)| + |ResultKey|;
    if from <= |out| - 1 then out[from..|out| - 1] else ""
  }

  /** `Status.MarshalJSON`: an object with the buffer member (when the
      buffer is not empty) and the result as `proto.Result` marshals it. */
  function StatusJson(v: StatusView, quote: string -> string, encode: Json -> Option<string>): (out: string)
    ensures |out| >= 2 && out[0] == '{' && out[|out| - 1] == '}'
    ensures ResultPart(out, v.buffer, quote) == Proto.MarshalResult(v.result, encode)
  {
    var res := Proto.MarshalResult(v.result, encode);
    var b := BufferMember(v.buffer, quote);
    var out := "{" + b + ResultKey + res + "}";
    assert out[1 + |b| + |ResultKey|..|out| - 1] == res;
    out
  }

  // ---------------------------------------------------------------------------
  // Properties

  /** Starting, finishing and closing never move a session back. */
  lemma StagesOnlyAdvance(s: Session, call: Proto.CallMessage, x: Exit, e: Proto.Error)
    ensures Rank(Start(s, call).0.stage) >= Rank(s.stage)
    ensures s.stage == Running ==> Rank(Finish(s, x).stage) > Rank(s.stage)
    ensures CloseWith(s, e, x).Some? ==> Rank(CloseWith(s, e, x).value.stage) >= Rank(s.stage)
  {
  }

  /** `SetDefaults` is idempotent and never lowers the bound. */
  lemma SetDefaultsIdempotent(maxLines: int)
    ensures SetDefaults(SetDefaults(maxLines)) == SetDefaults(maxLines)
    ensures SetDefaults(maxLines) >= maxLines
  {
  }

  /** A second `Start` is refused and changes nothing. */
  lemma StartsOnce(s: Session, c1: Proto.CallMessage, c2: Proto.CallMessage)
    requires s.stage == Init
    ensures var (s1, ok1) := Start(s, c1);
      var (s2, ok2) := Start(s1, c2);
      ok1 && !ok2 && s2 == s1 && s2.call == Some(c1)
  {
  }

  /** The result a running session's status shows is pending: the result
      part of its status document reads back as a pending envelope. */
  lemma RunningIsPending(s: Session, quote: string -> string, encode: Json -> Option<string>)
    requires s.stage == Running
    ensures var part := ResultPart(StatusJson(Status(s), quote, encode), s.buffer, quote);
      part == "{\"status\":\"pending\"}" &&
      Proto.ReadEnvelope(part) == Some(Proto.Envelope(Proto.Pending, None))
  {
  }

  /** A process that exits without returning finishes rejected, with
      "panic() in process" as the reason, whatever it wrote. */
  lemma ExitedIsRejected(s: Session, encode: Json -> Option<string>)
    requires s.stage == Running
    ensures var r := Status(Finish(s, Exited)).result;
      r == Some(Proto.ProtoResult(JNull, Some(Proto.Failed(PanicText)))) &&
      Proto.ReadEnvelope(Proto.MarshalResult(r, encode)).value.status == Proto.Rejected
  {
  }

  /** A cause given before the process returns is the one that stands:
      "handler has returned" never overrides it. */
  lemma FirstCauseWins(s: Session, e: Proto.Error, x: Exit)
    requires s.stage == Running && s.cause.None?
    ensures CloseWith(s, e, x) == Some(Finish(Cancel(CloseInput(s).0, e), x))
    ensures CloseWith(s, e, x).value.cause == Some(e)
    ensures CloseWith(Finish(s, x), e, x).value.cause == Some(Proto.HandlerReturn)
  {
  }

  /** After the input is closed every non-empty or empty write fails, and
      nothing more reaches the process. */
  lemma ClosedInputRefusesWrites(s: Session, data: string)
    ensures var c := CloseInput(s).0;
      Write(c, data).1.Err? && Write(c, data).0.input == s.input
  {
  }

  /** With no output and no result, the status document is exactly
      `{"result":{"status":"pending"}}`. */
  lemma EmptyPendingStatus(quote: string -> string, encode: Json -> Option<string>)
    ensures StatusJson(StatusView("", None), quote, encode) == "{\"result\":{\"status\":\"pending\"}}"
  {
    var pending := Proto.MarshalResult(None, encode);
    assert pending == "{\"status\":\"pending\"}";
  }
}
