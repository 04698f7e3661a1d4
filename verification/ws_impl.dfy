/**
  The WebSocket server of internal/ws_impl/serve.go, around the shared
  reader loop and input pump: the request-path check, the call phase, the
  value the handler returns, and the deferred framing of the result.
 */
module WsImpl {
  import opened Wrappers
  import opened Json
  import opened Proto
  import CleanPath
  import FrameDispatch

  // ---------------------------------------------------------------------------
  // Request paths

  /** `NewServer` keeps the cleaned form of its path. */
  function ServerPath(configured: string): (r: string)
    ensures |r| > 0 && r[0] == '/'
  {
    CleanPath.Clean(configured)
  }

  predicate IsPrefix(prefix: string, s: string) {
    |prefix| <= |s| && s[..|prefix|] == prefix
  }

  function WithSlash(path: string): (r: string)
    ensures CleanPath.EndsWithSlash(r)
    ensures CleanPath.EndsWithSlash(path) ==> r == path
    ensures !CleanPath.EndsWithSlash(path) ==> r == path + "/"
  {
    if CleanPath.EndsWithSlash(path) then path else path + "/"
  }

  /** `isValidRequestPath`: the request path, with a '/' appended when it has
      none, must begin with the server's path. The request path itself is
      not cleaned. Put without the appended slash: the server path begins
      the request path, or it is the request path and one slash the
      request path lacks. */
  function IsValidRequestPath(serverPath: string, path: string): (ok: bool)
    ensures ok <==> (IsPrefix(serverPath, path) ||
                     (!CleanPath.EndsWithSlash(path) && serverPath == path + "/"))
  {
    SlashedPrefix(serverPath, path);
    IsPrefix(serverPath, WithSlash(path))
  }

  /** A prefix of the slashed path is a prefix of the path itself, or the
      whole slashed path. */
  lemma SlashedPrefix(serverPath: string, path: string)
    ensures IsPrefix(serverPath, WithSlash(path)) <==>
      (IsPrefix(serverPath, path) || (!CleanPath.EndsWithSlash(path) && serverPath == path + "/"))
  {
    if !CleanPath.EndsWithSlash(path) && |serverPath| <= |path| {
      assert (path + "/")[..|serverPath|] == path[..|serverPath|];
    }
  }

  /** A server mounted at the root accepts every request path. */
  lemma RootAcceptsAll(path: string)
    requires |path| > 0 && path[0] == '/'
    ensures IsValidRequestPath(ServerPath(""), path)
  {
  }

  /** A server accepts the request for its own cleaned path, with or without
      the trailing slash. */
  lemma AcceptsOwnPath(configured: string)
    ensures var sp := ServerPath(configured);
      IsValidRequestPath(sp, sp) &&
      (CleanPath.EndsWithSlash(sp) && |sp| > 1 ==> IsValidRequestPath(sp, sp[..|sp| - 1]))
  {
    var sp := ServerPath(configured);
    if CleanPath.EndsWithSlash(sp) && |sp| > 1 {
      var bare := sp[..|sp| - 1];
      // a cleaned path never ends in "//", so the bare form has no slash to keep
      CleanNoDoubleSlash(configured);
      assert !CleanPath.EndsWithSlash(bare);
      assert bare + "/" == sp;
    }
  }

  lemma CleanNoDoubleSlash(configured: string)
    ensures var sp := ServerPath(configured);
      |sp| > 1 && CleanPath.EndsWithSlash(sp) ==> sp[|sp| - 2] != '/'
  {
    var sp := ServerPath(configured);
    if |sp| > 1 && CleanPath.EndsWithSlash(sp) && sp[|sp| - 2] == '/' {
      var a := sp[..|sp| - 2];
      assert sp == a + "//";
      DoubleSlashSplit(a);
      CleanTrailer(configured);
    }
  }

  /** A path ending in "//" splits into two trailing empty segments. */
  lemma DoubleSlashSplit(a: string)
    ensures CleanPath.Split(a + "//") == CleanPath.Split(a) + ["", ""]
  {
    assert a + "//" == a + "/" + "/";
    CleanPath.SplitConcat(a, "/");
    assert "/" == "" + "/" + "";
    CleanPath.SplitConcat("", "");
  }

  /** The only empty segments of a cleaned path are its first one and, for a
      trailing slash, its last one; two trailing empty segments only occur
      for the root, which has no second-to-last '/'. */
  lemma CleanTrailer(configured: string)
    ensures var segs := CleanPath.Split(ServerPath(configured));
      |segs| >= 3 ==> segs[|segs| - 2] != ""
  {
    var p := configured;
    var r := CleanPath.Clean(p);
    if p != "" {
      var rooted := if p[0] != '/' then "/" + p else p;
      var stack := CleanPath.Resolve(CleanPath.Split(rooted), []);
      var np := CleanPath.PathClean(rooted);
      CleanPath.TrailingSlash(p);
      if |stack| > 0 {
        assert np == "" + "/" + CleanPath.Join(stack);
        CleanPath.SplitConcat("", CleanPath.Join(stack));
        CleanPath.SplitJoin(stack);
        assert CleanPath.Split(np) == [""] + stack;
        if r == np + "/" {
          CleanPath.SplitConcat(np, "");
          assert r == np + "/" + "";
          assert CleanPath.Split(r) == [""] + stack + [""];
        }
      } else {
        assert r == "/";
        CleanPath.SplitConcat("", "");
        assert "/" == "" + "/" + "";
      }
    } else {
      CleanPath.SplitConcat("", "");
      assert "/" == "" + "/" + "";
    }
  }

  /** "/api" is already clean. */
  lemma ApiIsClean()
    ensures CleanPath.Clean("/api") == "/api"
  {
    assert CleanPath.Split("/api") == ["", "api"] by {
      assert "/api" == "" + "/" + "api";
      CleanPath.SplitConcat("", "api");
      CleanPath.SplitSegment("api");
    }
    assert CleanPath.Resolve(["", "api"], []) == CleanPath.Resolve(["api"], []);
    assert CleanPath.Resolve(["api"], []) == ["api"];
    assert CleanPath.PathClean("/api") == "/api";
  }

  /** The prefix test is not segment-aware: a server at "/api" (cleaned to
      "/api", without a trailing slash) also accepts "/apiary". */
  lemma PrefixIsNotSegmentAware()
    ensures ServerPath("/api") == "/api"
    ensures IsValidRequestPath(ServerPath("/api"), "/apiary")
  {
    ApiIsClean();
    assert !CleanPath.EndsWithSlash("/apiary");
    assert ("/apiary" + "/")[..4] == "/api";
  }

  /** `ServeHTTP`: an invalid path is answered with 404, any other request
      goes on to the WebSocket upgrade. */
  datatype HttpDispatch = NotFound | Upgrade

  function ServeHttp(serverPath: string, path: string): (d: HttpDispatch)
    ensures d == Upgrade <==> IsValidRequestPath(serverPath, path)
  {
    if !IsValidRequestPath(serverPath, path) then NotFound else Upgrade
  }

  // ---------------------------------------------------------------------------
  // The call and the handler

  /** `json.Unmarshal` into a CallMessage (a nil body does not decode). */
  type CallDecoder = FrameDispatch.Item -> Option<CallMessage>

  /** The call phase: the item `initialMessage` yields within
      `readCallTimeout` (`None` when nothing arrived in time), decoded, then
      handed to the handler's `Get`. */
  function CallPhase<P>(arrival: Option<FrameDispatch.Item>, decodeCall: CallDecoder,
                        get: CallMessage -> Result<P, Error>): (r: Result<P, Error>)
    ensures arrival.None? ==> r == Err(Timeout)
    ensures arrival.Some? && decodeCall(arrival.value).None? ==> r == Err(ProtocolError)
    ensures arrival.Some? && decodeCall(arrival.value).Some? ==>
      match get(decodeCall(arrival.value).value)
      case Ok(p) => r == Ok(p)
      case Err(e) => r == Err(Wrapped("failed to get process", e))
  {
    match arrival
    case None => Err(Timeout)
    case Some(body) =>
      match decodeCall(body)
      case None => Err(ProtocolError)
      case Some(call) =>
        match get(call)
        case Ok(p) => Ok(p)
        case Err(e) => Err(Wrapped("failed to get process", e))
  }

  /** What `serve` returns before its deferred function runs: the value of
      `Do`, or an error (a process error is wrapped). `None` is a nil value. */
  datatype Returned = Returned(res: Option<Json>, err: Option<Error>)

  function ServeReturn<P>(phase: Result<P, Error>, run: Result<Json, Error>): (r: Returned)
    ensures r.res.Some? <==> r.err.None?
    ensures phase.Err? ==> r == Returned(None, Some(phase.error))
    ensures phase.Ok? && run.Err? ==> r == Returned(None, Some(Wrapped("process returned error", run.error)))
    ensures phase.Ok? && run.Ok? ==> r == Returned(Some(run.value), None)
  {
    match phase
    case Err(e) => Returned(None, Some(e))
    case Ok(_) =>
      match run
      case Err(e) => Returned(None, Some(Wrapped("process returned error", e)))
      case Ok(v) => Returned(Some(v), None)
  }

  // ---------------------------------------------------------------------------
  // The deferred result framing

  /** Frames the server writes when `serve` exits: the marshalled result as a
      binary frame, then an empty close frame. */
  datatype OutFrame = BinaryOut(data: string) | EmptyClose

  /** The error after the deferred `recover`: a panic becomes
      "unknown error: <value>" (and no value was returned). */
  function FinalReturn(ret: Returned, panicked: Option<string>): (r: Returned)
    ensures panicked.Some? ==> r == Returned(None, Some(Wrapped("unknown error", Recovered(panicked.value))))
    ensures panicked.None? ==> r == ret
  {
    match panicked
    case Some(v) => Returned(None, Some(Wrapped("unknown error", Recovered(v))))
    case None => ret
  }

  /** The marshalled `Result{res, err}`; a nil value is JSON null. */
  function ResultData(ret: Returned, encode: Json -> Option<string>): string {
    MarshalResult(Some(ProtoResult(ret.res.GetOr(JNull), ret.err)), encode)
  }

  /** The deferred function: nothing is written once the connection's context
      is done; otherwise the result frame, and the close frame only if that
      write succeeded. */
  function ExitFrames(ret: Returned, panicked: Option<string>, connDone: bool, writeOk: bool,
                      encode: Json -> Option<string>): (frames: seq<OutFrame>)
    ensures connDone ==> frames == []
    ensures !connDone && !writeOk ==> frames == []
    ensures !connDone && writeOk ==>
      |frames| == 2 && frames[1] == EmptyClose && frames[0].BinaryOut? &&
      var fin := FinalReturn(ret, panicked);
      ReadEnvelope(frames[0].data) ==
        Some(EnvelopeOf(Some(ProtoResult(fin.res.GetOr(JNull), fin.err)), encode))
  {
    var fin := FinalReturn(ret, panicked);
    var data := ResultData(fin, encode);
    if connDone then []
    else if !writeOk then []
    else [BinaryOut(data), EmptyClose]
  }

  /** A connection whose call does not decode ends with a rejected result
      whose reason is "protocol error occurred"; the handler is never asked. */
  lemma BadCallIsRejected<P>(body: FrameDispatch.Item, decodeCall: CallDecoder,
                             get: CallMessage -> Result<P, Error>, run: Result<Json, Error>,
                             encode: Json -> Option<string>)
    requires decodeCall(body).None?
    ensures var frames := ExitFrames(ServeReturn(CallPhase(Some(body), decodeCall, get), run),
                                     None, false, true, encode);
      ReadEnvelope(frames[0].data) ==
        Some(Envelope(Rejected, NonEmpty(encode(JString("protocol error occurred")))))
  {
  }

  /** The call phase receives the first binary frame of the connection, or
      the nil item of the closed channel when the connection ends before
      one; the reader has delivered a call exactly in the first case. */
  lemma CallIsFirstBinary(events: seq<FrameDispatch.Event>, decode: FrameDispatch.SignalDecoder)
    ensures FrameDispatch.Run(FrameDispatch.Start, events, decode).initial == FrameDispatch.FirstBinary(events)
    ensures FrameDispatch.Run(FrameDispatch.Start, events, decode).hadInitial <==> FrameDispatch.CallBeforeEnd(events)
  {
    FrameDispatch.FirstBinaryIsTheCall(FrameDispatch.Start, events, decode);
  }

  /** A connection that ends before its first binary frame does not wait for
      the timeout: the call phase receives nil, which does not decode, and
      fails with "protocol error occurred". */
  lemma GoneBeforeCallIsProtocolError<P>(pre: seq<FrameDispatch.Event>, rest: seq<FrameDispatch.Event>,
                                         decode: FrameDispatch.SignalDecoder, decodeCall: CallDecoder,
                                         get: CallMessage -> Result<P, Error>)
    requires forall i :: 0 <= i < |pre| ==> pre[i].Received? && !pre[i].frame.kind.BinaryFrame?
    requires decodeCall(None).None?
    ensures var events := pre + [FrameDispatch.ConnectionDone] + rest;
      CallPhase(FrameDispatch.Run(FrameDispatch.Start, events, decode).initial, decodeCall, get) == Err(ProtocolError)
  {
    var events := pre + [FrameDispatch.ConnectionDone] + rest;
    CallIsFirstBinary(events, decode);
    FrameDispatch.GoneBeforeCall(pre, rest);
  }
}
