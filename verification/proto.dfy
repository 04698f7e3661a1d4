/**
  Protocol constants, error sentinels and the result serialiser of
  proto/proto.go and proto/handler.go.

  `json.Marshal` is a parameter `encode` returning `None` when encoding fails
  or panics; its output for a value is otherwise opaque text.
 */
module Proto {
  import opened Wrappers
  import opened Json

  /** The mandatory WebSocket subprotocol. */
  const Subprotocol: string := "pow-1"
  /** Signal tokens of a SignalMessage. */
  const SignalCancel: string := "cancel"
  const SignalClose: string := "close"

  /** CallMessage: the process to call and its parameters. */
  datatype CallMessage = CallMessage(call: string, params: seq<string>)

  // ---------------------------------------------------------------------------
  // Reading the client's messages

  /** `json.Unmarshal` of a member into a `string` field: an absent member or
      null leaves the zero value "", a string is taken, any other value is a
      type error. */
  function DecodeString(v: Option<Json>): (r: Option<string>)
    ensures v.None? || v == Some(JNull) ==> r == Some("")
    ensures v.Some? && v.value.JString? ==> r == Some(v.value.s)
    ensures r.None? <==> v.Some? && !v.value.JNull? && !v.value.JString?
  {
    match v
    case None => Some("")
    case Some(JNull) => Some("")
    case Some(JString(s)) => Some(s)
    case Some(_) => None
  }

  /** An element of a `[]string`: null leaves the element "". */
  predicate StringOrNull(v: Json) {
    v.JString? || v.JNull?
  }

  /** `json.Unmarshal` of a member into a `[]string` field: absent or null is
      the nil slice, an array of strings and nulls is read element by
      element, any other value is a type error. */
  function DecodeStrings(v: Option<Json>): (r: Option<seq<string>>)
    ensures v.None? || v == Some(JNull) ==> r == Some([])
    ensures r.Some? && v.Some? && v.value.JArray? ==>
      |r.value| == |v.value.items| &&
      forall i :: 0 <= i < |r.value| ==>
        r.value[i] == (if v.value.items[i].JString? then v.value.items[i].s else "")
    ensures r.None? <==>
      v.Some? && !v.value.JNull? &&
      (!v.value.JArray? || exists i :: 0 <= i < |v.value.items| && !StringOrNull(v.value.items[i]))
  {
    match v
    case None => Some([])
    case Some(JNull) => Some([])
    case Some(JArray(items)) =>
      if forall i :: 0 <= i < |items| ==> StringOrNull(items[i]) then
        Some(seq(|items|, i requires 0 <= i < |items| => if items[i].JString? then items[i].s else ""))
      else None
    case Some(_) => None
  }

  /** `json.Unmarshal` into a CallMessage, on the parsed document: null is
      the zero message, an object is read member by member, and anything
      else is a type error. Unknown members are ignored. */
  function ReadCallMessage(j: Json): (r: Option<CallMessage>)
    ensures j.JNull? ==> r == Some(CallMessage("", []))
    ensures !j.JNull? && !j.JObject? ==> r.None?
    ensures j.JObject? ==>
      (r.Some? <==> DecodeString(Property(j, "call")).Some? && DecodeStrings(Property(j, "params")).Some?)
    ensures j.JObject? && r.Some? ==>
      r.value == CallMessage(DecodeString(Property(j, "call")).value, DecodeStrings(Property(j, "params")).value)
  {
    match j
    case JNull => Some(CallMessage("", []))
    case JObject(_) =>
      (match (DecodeString(Property(j, "call")), DecodeStrings(Property(j, "params")))
       case (Some(call), Some(params)) => Some(CallMessage(call, params))
       case _ => None)
    case _ => None
  }

  /** `json.Unmarshal` into a SignalMessage, on the parsed document. */
  function ReadSignal(j: Json): (r: Option<string>)
    ensures j.JNull? ==> r == Some("")
    ensures !j.JNull? && !j.JObject? ==> r.None?
    ensures j.JObject? ==> r == DecodeString(Property(j, "signal"))
    ensures Property(j, "signal").Some? && Property(j, "signal").value.JString? ==>
      r == Some(Property(j, "signal").value.s)
  {
    match j
    case JNull => Some("")
    case JObject(_) => DecodeString(Property(j, "signal"))
    case _ => None
  }

  /** A call message without `params`, the form `omitempty` writes for no
      parameters, is read with none. */
  lemma OmittedParams(call: string)
    ensures ReadCallMessage(JObject(map["call" := JString(call)])) == Some(CallMessage(call, []))
  {
  }

  /** An empty object and null both read as the zero message, naming the
      process "". */
  lemma ZeroCallMessage()
    ensures ReadCallMessage(JObject(map[])) == Some(CallMessage("", []))
    ensures ReadCallMessage(JNull) == Some(CallMessage("", []))
  {
  }

  /** A `call` member that is not a string, or `params` that are not strings,
      make decoding fail. */
  lemma MistypedCallMessage(n: int)
    ensures ReadCallMessage(JObject(map["call" := JNumber(n)])).None?
    ensures ReadCallMessage(JObject(map["call" := JString("x"), "params" := JArray([JNumber(n)])])).None?
    ensures ReadCallMessage(JArray([])).None?
  {
    var ps := JArray([JNumber(n)]);
    assert !StringOrNull(ps.items[0]);
  }

  /** Errors that cross the protocol: the ErrCancel* and ErrHandler* sentinels,
      any other error by its text, wrapping with `fmt.Errorf("<context>: %w")`,
      and the errors the servers build from a recovered panic value. */
  datatype Error =
    | ClientGone
    | HandlerReturn
    | ClientRequest
    | ProtocolError
    | Timeout
    | UnknownProcess
    | InvalidArgs
    | AuthorizationDenied
    | Failed(text: string)
    | Wrapped(context: string, cause: Error)
    | Recovered(value: string)

  /** The error's text, `fmt.Sprint(err)`. */
  function Message(e: Error): string {
    match e
    case ClientGone => "client has gone away"
    case HandlerReturn => "handler has returned"
    case ClientRequest => "client requested cancellation"
    case ProtocolError => "protocol error occurred"
    case Timeout => "timeout expired"
    case UnknownProcess => "unknown process"
    case InvalidArgs => "invalid args"
    case AuthorizationDenied => "authorization denied"
    case Failed(text) => text
    case Wrapped(context, cause) => context + ": " + Message(cause)
    case Recovered(value) => value
  }

  /** `proto.Result`: a value and an optional error. */
  datatype ProtoResult = ProtoResult(value: Json, reason: Option<Error>)

  // ---------------------------------------------------------------------------
  // The result envelope

  datatype Status = Pending | Fulfilled | Rejected

  function StatusName(s: Status): string {
    match s
    case Pending => "pending"
    case Fulfilled => "fulfilled"
    case Rejected => "rejected"
  }

  /** The payload key of a status: "value" when fulfilled, "reason" otherwise. */
  function PayloadKey(s: Status): string {
    if s == Fulfilled then "value" else "reason"
  }

  /** What a marshalled result says: its status and, unless omitted, the
      encoded payload (never empty). */
  datatype Envelope = Envelope(status: Status, payload: Option<string>)

  predicate ValidEnvelope(e: Envelope) {
    e.payload.Some? ==> e.status != Pending && |e.payload.value| > 0
  }

  const StatusHead: string := "{\"status\":\""

  /** The text of an envelope: `{"status":"S"}` or `{"status":"S","K":C}`. */
  function Render(e: Envelope): (out: string)
    ensures |out| > |StatusHead| && out[..|StatusHead|] == StatusHead && out[|out| - 1] == '}'
  {
    match e.payload
    case None => StatusHead + StatusName(e.status) + "\"}"
    case Some(c) => StatusHead + StatusName(e.status) + "\",\"" + PayloadKey(e.status) + "\":" + c + "}"
  }

  /** Reads the text between the head and the closing brace for one status. */
  function TryStatus(t: string, s: Status): (r: Option<Envelope>)
    ensures r.Some? ==> r.value.status == s && |t| > 0 && t[0] == StatusName(s)[0]
    ensures r.Some? ==> ValidEnvelope(r.value)
  {
    var name := StatusName(s) + "\"";
    if t == name then Some(Envelope(s, None))
    else
      var lead := name + ",\"" + PayloadKey(s) + "\":";
      if s != Pending && |t| > |lead| && t[..|lead|] == lead then
        assert t[0] == lead[0];
        Some(Envelope(s, Some(t[|lead|..])))
      else None
  }

  /** The inverse of `Render`: recognises exactly the texts it produces. */
  function ReadEnvelope(out: string): (r: Option<Envelope>)
    ensures r.Some? ==> ValidEnvelope(r.value)
  {
    if |out| > |StatusHead| && out[..|StatusHead|] == StatusHead && out[|out| - 1] == '}' then
      var t := out[|StatusHead|..|out| - 1];
      match TryStatus(t, Pending)
      case Some(e) => Some(e)
      case None =>
        match TryStatus(t, Fulfilled)
        case Some(e) => Some(e)
        case None => TryStatus(t, Rejected)
    else None
  }

  lemma {:induction false} TryStatusOn(e: Envelope)
    requires ValidEnvelope(e)
    ensures var t := Render(e)[|StatusHead|..|Render(e)| - 1];
      TryStatus(t, e.status) == Some(e)
  {
    var out := Render(e);
    var t := out[|StatusHead|..|out| - 1];
    var name := StatusName(e.status) + "\"";
    match e.payload
    case None =>
      assert out == StatusHead + name + "}";
      assert t == name;
    case Some(c) =>
      var lead := name + ",\"" + PayloadKey(e.status) + "\":";
      assert out == StatusHead + lead + c + "}";
      assert t == lead + c;
      assert t != name by {
        assert |t| > |name|;
      }
      assert t[..|lead|] == lead;
      assert t[|lead|..] == c;
  }

  /** Reading a rendered envelope gives it back. */
  lemma {:induction false} ReadRender(e: Envelope)
    requires ValidEnvelope(e)
    ensures ReadEnvelope(Render(e)) == Some(e)
  {
    var out := Render(e);
    var t := out[|StatusHead|..|out| - 1];
    TryStatusOn(e);
    assert |t| > 0 && t[0] == StatusName(e.status)[0] by {
      var name := StatusName(e.status) + "\"";
      match e.payload
      case None =>
        assert out == StatusHead + name + "}";
        assert t == name;
      case Some(c) =>
        var lead := name + ",\"" + PayloadKey(e.status) + "\":";
        assert out == StatusHead + lead + c + "}";
        assert t == lead + c;
    }
    // the first letters 'p', 'f', 'r' tell the statuses apart
    if e.status != Pending {
      assert TryStatus(t, Pending).None?;
    }
    if e.status == Rejected {
      assert TryStatus(t, Fulfilled).None?;
    }
  }

  // ---------------------------------------------------------------------------
  // Result.MarshalJSON

  /** Empty or failed encodings both leave the payload out. */
  function NonEmpty(c: Option<string>): (r: Option<string>)
    ensures r.Some? ==> |r.value| > 0
  {
    if c.Some? && |c.value| > 0 then c else None
  }

  /** The envelope a result is marshalled as. A nil result is pending; no
      reason means fulfilled with the encoded value; a reason means rejected
      with the encoded error text, and the value is ignored. */
  function EnvelopeOf(res: Option<ProtoResult>, encode: Json -> Option<string>): (e: Envelope)
    ensures ValidEnvelope(e)
    ensures res.None? ==> e == Envelope(Pending, None)
    ensures res.Some? && res.value.reason.None? ==> e == Envelope(Fulfilled, NonEmpty(encode(res.value.value)))
    ensures res.Some? && res.value.reason.Some? ==>
      e == Envelope(Rejected, NonEmpty(encode(JString(Message(res.value.reason.value)))))
  {
    match res
    case None => Envelope(Pending, None)
    case Some(r) =>
      match r.reason
      case None => Envelope(Fulfilled, NonEmpty(encode(r.value)))
      case Some(err) => Envelope(Rejected, NonEmpty(encode(JString(Message(err)))))
  }

  /** `(*Result).MarshalJSON`: never fails. A nil result gives exactly
      `{"status":"pending"}`; otherwise the text reads back as the status the
      reason selects, with the encoded payload under "value" or "reason", and
      the payload key is omitted when encoding failed or gave nothing. */
  function MarshalResult(res: Option<ProtoResult>, encode: Json -> Option<string>): (out: string)
    ensures res.None? ==> out == "{\"status\":\"pending\"}"
    ensures ReadEnvelope(out) == Some(EnvelopeOf(res, encode))
    ensures res.Some? ==>
      (ReadEnvelope(out).value.status == if res.value.reason.None? then Fulfilled else Rejected)
  {
    var e := EnvelopeOf(res, encode);
    ReadRender(e);
    Render(e)
  }

  /** With a reason, the value plays no part in the output. */
  lemma RejectedIgnoresValue(v1: Json, v2: Json, err: Error, encode: Json -> Option<string>)
    ensures MarshalResult(Some(ProtoResult(v1, Some(err))), encode) ==
            MarshalResult(Some(ProtoResult(v2, Some(err))), encode)
  {
  }

  /** A fulfilled result whose value encodes to `c` has exactly the form
      `{"status":"fulfilled","value":c}`. */
  lemma FulfilledShape(v: Json, encode: Json -> Option<string>)
    requires encode(v).Some? && |encode(v).value| > 0
    ensures MarshalResult(Some(ProtoResult(v, None)), encode) ==
            "{\"status\":\"fulfilled\",\"value\":" + encode(v).value + "}"
  {
    var c := encode(v).value;
    assert EnvelopeOf(Some(ProtoResult(v, None)), encode) == Envelope(Fulfilled, Some(c));
    assert StatusHead + "fulfilled" + "\",\"" + "value" + "\":" == "{\"status\":\"fulfilled\",\"value\":";
  }

  /** When encoding fails the output is just the status. */
  lemma OmittedPayloadShape(r: ProtoResult, encode: Json -> Option<string>)
    requires r.reason.None? ==> encode(r.value).None?
    requires r.reason.Some? ==> encode(JString(Message(r.reason.value))).None?
    ensures MarshalResult(Some(r), encode) ==
            "{\"status\":\"" + (if r.reason.None? then "fulfilled" else "rejected") + "\"}"
  {
  }
}
