/**
  `Server` of internal/rest_impl/serve.go: the REST transport. Sessions live
  in a vapor under random ids; `/new` starts one, `/status`, `/input`,
  `/closeInput` and `/cancel` act on one by id, and `Close` cancels them all.

  One request is one step of the model. What lies outside the server comes
  in as parameters (`Env`): the random ids, the call-message decoder, the JSON
  string and value encoders, and for each session the way its process ends
  once it is cancelled.
 */
module RestServe {
  import opened Wrappers
  import opened Json
  import Proto
  import TtlCache
  import Vapor
  import RestSession

  /** `time.Minute`, in nanoseconds, the unit of the logical clock. */
  const Minute: int := 60_000_000_000

  datatype Options = Options(timeout: int, maxLines: int)

  /** `Options.SetDefaults`: a timeout below a minute becomes a minute. The
      session options are left to the session's own defaults. */
  function SetDefaults(o: Options): (r: Options)
    ensures r.timeout >= Minute && r.maxLines == o.maxLines
    ensures o.timeout >= Minute ==> r == o
    ensures o.timeout < Minute ==> r.timeout == Minute
  {
    if o.timeout < Minute then o.(timeout := Minute) else o
  }

  /** The server after `doInit`. `cancelled` is whether the server's own
      context was cancelled. */
  datatype Server = Server(vapor: Vapor.Vapor<RestSession.Session>, options: Options, cancelled: bool)

  /** `NewServer`: the options passed in are dropped, so every server runs
      with the defaults of the zero options. */
  function NewServer(o: Options): (r: Server)
    ensures r.options == Options(Minute, 0) && !r.cancelled
    ensures r.vapor.cache.items == map[] && !r.vapor.stopped
    ensures Valid(r)
  {
    Server(Vapor.Empty(), SetDefaults(Options(0, 0)), false)
  }

  /** Everything outside the server: the successive results of NewID (a
      random UUID, or "" when randomness fails), the decoder of a call
      message, Go's JSON string and value encoders, and how each session's
      process ends once its context is cancelled. */
  datatype Env = Env(
    uuids: nat -> string,
    decodeCall: string -> Option<Proto.CallMessage>,
    quote: string -> string,
    encode: Json -> Option<string>,
    exits: string -> RestSession.Exit)

  /** The vapor's hooks as `doInit` sets them: Initialize runs the session's
      `Init`, and Finalize is set. */
  function Hooks(srv: Server, env: Env): Vapor.Hooks<RestSession.Session> {
    Vapor.Hooks(Some(env.uuids), Some((s: RestSession.Session) => RestSession.Initialise(s, srv.options.maxLines)), true)
  }

  /** An entry whose session was initialised and started. */
  predicate Started(e: Vapor.Entry<RestSession.Session>) {
    e.initialised && e.value.stage != RestSession.Init
  }

  /** Every held session is initialised and was started, which `/new` does
      as soon as it creates one, and the store holds no expired session. */
  predicate Valid(srv: Server) {
    Vapor.Valid(srv.vapor) && srv.options.timeout >= Minute &&
    forall id :: id in srv.vapor.cache.items ==> Started(srv.vapor.cache.items[id].value)
  }

  /** The Finalize hook: a session that expired is closed with "timeout
      expired"; a deleted one is left alone. */
  function FinalizeCause(reason: Vapor.FinalizeReason): (r: Option<Proto.Error>)
    ensures r.Some? <==> reason == Vapor.Expired
    ensures r.Some? ==> r.value == Proto.Timeout
  {
    match reason
    case Expired => Some(Proto.Timeout)
    case Deleted => None
  }

  // ---------------------------------------------------------------------------
  // Requests and responses

  /** The routes `doInit` registers, and anything else. */
  datatype Route =
    | New(body: string)
    | StatusOf(id: string)
    | Input(id: string, body: string)
    | CloseInput(id: string)
    | Cancel(id: string)
    | Unrouted

  datatype Request = Request(upgrade: bool, route: Route)

  /** Status code, whether the body is JSON, and the body. */
  datatype Response = Response(code: int, isJson: bool, body: string)

  /** `http.Error`: a plain text body ended by a newline. */
  function HttpError(code: int, text: string): (r: Response)
    ensures r.code == code && !r.isJson && r.body == text + "\n"
  {
    Response(code, false, text + "\n")
  }

  /** `w.WriteHeader(200)` and a plain text body. */
  function Ok200(text: string): (r: Response)
    ensures r.code == 200 && !r.isJson && r.body == text
  {
    Response(200, false, text)
  }

  /** The session under `id` replaced by `s`, as a write through the
      pointer the vapor holds. */
  function Store(srv: Server, id: string, s: RestSession.Session): (r: Server)
    requires id in srv.vapor.cache.items
    ensures r.vapor.cache.items.Keys == srv.vapor.cache.items.Keys
    ensures r.vapor.cache.items[id].value == Vapor.Entry(srv.vapor.cache.items[id].value.initialised, s)
    ensures forall k :: k in srv.vapor.cache.items && k != id ==> r.vapor.cache.items[k] == srv.vapor.cache.items[k]
    ensures r.options == srv.options && r.cancelled == srv.cancelled && r.vapor.stopped == srv.vapor.stopped
    ensures Valid(srv) && s.stage != RestSession.Init ==> Valid(r)
  {
    var e := srv.vapor.cache.items[id].value;
    srv.(vapor := srv.vapor.(cache := TtlCache.Replace(srv.vapor.cache, id, Vapor.Entry(e.initialised, s))))
  }

  /** The frame every handler keeps: the options, the server's context and
      the stopped flag of the store. */
  predicate SameFrame(a: Server, b: Server) {
    a.options == b.options && a.cancelled == b.cancelled && a.vapor.stopped == b.vapor.stopped
  }

  /** `serveNew`: the call is decoded, a new session is created with the
      server's timeout, and it is started on the call at once. */
  function ServeNew(srv: Server, env: Env, body: string): (r: (Server, Response))
    requires Valid(srv)
    ensures Valid(r.0) && SameFrame(r.0, srv)
    ensures env.decodeCall(body).None? ==> r == (srv, HttpError(400, "failed to decode call message"))
    ensures env.decodeCall(body).Some? ==>
      var (v1, created) := Vapor.GetNew(srv.vapor, Hooks(srv, env), RestSession.Zero(), srv.options.timeout as nat);
      match created
      case Err(_) => r == (srv.(vapor := v1), HttpError(500, "failed to create new process"))
      case Ok((id, s)) =>
        r.1 == Response(200, true, env.quote(id) + "\n") &&
        id != "" && id !in srv.vapor.cache.items && !srv.vapor.stopped &&
        r.0.vapor.cache.items.Keys == srv.vapor.cache.items.Keys + {id} &&
        r.0.vapor.cache.items[id].value.value == s.(stage := RestSession.Running, call := env.decodeCall(body))
  {
    match env.decodeCall(body)
    case None => (srv, HttpError(400, "failed to decode call message"))
    case Some(call) =>
      var (v1, created) := Vapor.GetNew(srv.vapor, Hooks(srv, env), RestSession.Zero(), srv.options.timeout as nat);
      match created
      case Err(_) => (srv.(vapor := v1), HttpError(500, "failed to create new process"))
      case Ok((id, s)) =>
        var (started, _) := RestSession.Start(s, call);
        NewEntryStarted(srv, env, v1, id);
        (Store(srv.(vapor := v1), id, started), Response(200, true, env.quote(id) + "\n"))
  }

  /** The store after `GetNew` made `id`: every other entry is as before. */
  lemma NewEntryStarted(srv: Server, env: Env, v1: Vapor.Vapor<RestSession.Session>, id: string)
    requires Valid(srv)
    requires var (w, created) := Vapor.GetNew(srv.vapor, Hooks(srv, env), RestSession.Zero(), srv.options.timeout as nat);
      w == v1 && created.Ok? && created.value.0 == id
    ensures id in v1.cache.items && id !in srv.vapor.cache.items && !v1.stopped && Vapor.Valid(v1)
    ensures v1.cache.items.Keys == srv.vapor.cache.items.Keys + {id}
    ensures forall k :: k in v1.cache.items && k != id ==> Started(v1.cache.items[k].value)
  {
    var h := Hooks(srv, env);
    var (v0, made) := Vapor.NewEntry(srv.vapor, h, RestSession.Zero(), srv.options.timeout as nat);
    assert made == Ok(id);
  }

  /** The common start of the four handlers that act on one session: the id
      must be given and held. The session is read with `Get`, which extends
      its deadline. */
  function Lookup(srv: Server, env: Env, id: string): (r: (Server, Result<RestSession.Session, Response>))
    requires Valid(srv)
    ensures Valid(r.0) && SameFrame(r.0, srv) && r.0.vapor.cache.items.Keys == srv.vapor.cache.items.Keys
    ensures id == "" ==> r == (srv, Err(HttpError(400, "did not provide id")))
    ensures id != "" && id !in srv.vapor.cache.items ==> r == (srv, Err(HttpError(404, "process not found")))
    ensures id != "" && id in srv.vapor.cache.items ==>
      r.1 == Ok(srv.vapor.cache.items[id].value.value) &&
      r.0.vapor.cache.items[id].deadline == srv.vapor.cache.now + srv.vapor.cache.items[id].ttl
  {
    if id == "" then (srv, Err(HttpError(400, "did not provide id")))
    else if id !in srv.vapor.cache.items then (srv, Err(HttpError(404, "process not found")))
    else
      var (v1, got) := Vapor.Get(srv.vapor, Hooks(srv, env), id);
      assert Started(v1.cache.items[id].value);
      (srv.(vapor := v1), Ok(got.value))
  }

  /** `serveStatus`: the session's status as JSON. */
  function ServeStatus(srv: Server, env: Env, id: string): (r: (Server, Response))
    requires Valid(srv)
    ensures Valid(r.0) && SameFrame(r.0, srv) && r.0.vapor.cache.items.Keys == srv.vapor.cache.items.Keys
    ensures r.1.code == 200 <==> id != "" && id in srv.vapor.cache.items
    ensures r.1.code == 200 ==>
      r.1.isJson &&
      r.1.body == RestSession.StatusJson(RestSession.Status(srv.vapor.cache.items[id].value.value), env.quote, env.encode) + "\n"
  {
    match Lookup(srv, env, id)
    case (s1, Err(resp)) => (s1, resp)
    case (s1, Ok(s)) =>
      (s1, Response(200, true, RestSession.StatusJson(RestSession.Status(s), env.quote, env.encode) + "\n"))
  }

  /** `serveInput`: the body is copied into the session's input. An empty
      body makes no write, so it is accepted even after the input closed. */
  function ServeInput(srv: Server, env: Env, id: string, body: string): (r: (Server, Response))
    requires Valid(srv)
    ensures Valid(r.0) && SameFrame(r.0, srv) && r.0.vapor.cache.items.Keys == srv.vapor.cache.items.Keys
    ensures id != "" && id in srv.vapor.cache.items ==>
      var s := srv.vapor.cache.items[id].value.value;
      (r.1 == Ok200("input sent") <==> body == "" || s.inputOpen) &&
      (r.1 != Ok200("input sent") ==> r.1 == HttpError(500, "error copying data to process")) &&
      r.0.vapor.cache.items[id].value.value.input == s.input + (if s.inputOpen then body else "")
  {
    match Lookup(srv, env, id)
    case (s1, Err(resp)) => (s1, resp)
    case (s1, Ok(s)) =>
      if body == "" then (s1, Ok200("input sent"))
      else
        match RestSession.Write(s, body)
        case (_, Err(_)) => (s1, HttpError(500, "error copying data to process"))
        case (written, Ok(_)) => (Store(s1, id, written), Ok200("input sent"))
  }

  /** `serveCloseInput`: closing never fails, so the answer is always
      "input closed". */
  function ServeCloseInput(srv: Server, env: Env, id: string): (r: (Server, Response))
    requires Valid(srv)
    ensures Valid(r.0) && SameFrame(r.0, srv) && r.0.vapor.cache.items.Keys == srv.vapor.cache.items.Keys
    ensures id != "" && id in srv.vapor.cache.items ==>
      r.1 == Ok200("input closed") && !r.0.vapor.cache.items[id].value.value.inputOpen
  {
    match Lookup(srv, env, id)
    case (s1, Err(resp)) => (s1, resp)
    case (s1, Ok(s)) =>
      var (closed, failed) := RestSession.CloseInput(s);
      if failed.Some? then (s1, HttpError(500, "error closing input"))
      else (Store(s1, id, closed), Ok200("input closed"))
  }

  /** `serveCancel`: the session is closed with "client requested
      cancellation" and waited for; the answer, as written, is "input
      closed". */
  function ServeCancel(srv: Server, env: Env, id: string): (r: (Server, Response))
    requires Valid(srv)
    ensures Valid(r.0) && SameFrame(r.0, srv) && r.0.vapor.cache.items.Keys == srv.vapor.cache.items.Keys
    ensures id != "" && id in srv.vapor.cache.items ==>
      var s := srv.vapor.cache.items[id].value.value;
      var after := r.0.vapor.cache.items[id].value.value;
      r.1 == Ok200("input closed") && after.stage == RestSession.Finished &&
      after.cause == (if s.cause.Some? then s.cause else Some(Proto.ClientRequest))
  {
    match Lookup(srv, env, id)
    case (s1, Err(resp)) => (s1, resp)
    case (s1, Ok(s)) =>
      var closed := RestSession.CloseWith(s, Proto.ClientRequest, env.exits(id)).value;
      (Store(s1, id, closed), Ok200("input closed"))
  }

  /** `ServeHTTP`: a WebSocket upgrade is refused with 404; a server whose
      context was cancelled answers 503; otherwise the route's handler
      answers, and an unknown route gets the mux's 404. */
  function Serve(srv: Server, env: Env, req: Request): (r: (Server, Response))
    requires Valid(srv)
    ensures Valid(r.0) && SameFrame(r.0, srv)
    ensures req.upgrade ==> r == (srv, HttpError(404, "Not Found"))
    ensures !req.upgrade && srv.cancelled ==> r == (srv, HttpError(503, "Service Unavailable"))
    ensures !req.upgrade && !srv.cancelled && req.route.Unrouted? ==> r == (srv, HttpError(404, "404 page not found"))
  {
    if req.upgrade then (srv, HttpError(404, "Not Found"))
    else if srv.cancelled then (srv, HttpError(503, "Service Unavailable"))
    else
      match req.route
      case New(body) => ServeNew(srv, env, body)
      case StatusOf(id) => ServeStatus(srv, env, id)
      case Input(id, body) => ServeInput(srv, env, id, body)
      case CloseInput(id) => ServeCloseInput(srv, env, id)
      case Cancel(id) => ServeCancel(srv, env, id)
      case Unrouted => (srv, HttpError(404, "404 page not found"))
  }

  // ---------------------------------------------------------------------------
  // Time and shutdown

  /** The sessions the server closed, by id. */
  type Closed = map<string, RestSession.Session>

  /** Each of `sessions` closed with its own cause and waited for. */
  function CloseAll(sessions: map<string, RestSession.Session>, causes: map<string, Proto.Error>, env: Env): (r: Closed)
    requires forall k :: k in sessions ==> k in causes && sessions[k].stage != RestSession.Init
    ensures r.Keys == sessions.Keys
    ensures forall k :: k in r ==>
      r[k].stage == RestSession.Finished &&
      r[k].cause == (if sessions[k].cause.Some? then sessions[k].cause else Some(causes[k]))
  {
    map k | k in sessions :: RestSession.CloseWith(sessions[k], causes[k], env.exits(k)).value
  }

  /** Time passes: expired sessions leave the store, and each is closed with
      "timeout expired" by the Finalize hook. */
  function Tick(srv: Server, env: Env, dt: nat): (r: (Server, Closed))
    requires Valid(srv)
    ensures Valid(r.0) && SameFrame(r.0, srv) && r.0.vapor.cache.now == srv.vapor.cache.now + dt
    ensures forall k :: k in r.1 <==>
      k in srv.vapor.cache.items && TtlCache.Expired(srv.vapor.cache.items[k], srv.vapor.cache.now + dt)
    ensures forall k :: k in r.0.vapor.cache.items <==> k in srv.vapor.cache.items && k !in r.1
    ensures forall k :: k in r.1 ==>
      var before := srv.vapor.cache.items[k].value.value;
      r.1[k].stage == RestSession.Finished &&
      r.1[k].cause == (if before.cause.Some? then before.cause else Some(Proto.Timeout))
  {
    var (v1, finals) := Vapor.Advance(srv.vapor, Hooks(srv, env), dt);
    var sessions := map k | k in finals :: finals[k].value;
    var causes := map k | k in finals :: FinalizeCause(finals[k].reason).value;
    (srv.(vapor := v1), CloseAll(sessions, causes, env))
  }

  /** `Close`: every session is closed with "server closing" and waited for,
      then deleted; the store stops creating sessions. The server's context
      is not cancelled. */
  function Close(srv: Server, env: Env): (r: (Server, Closed))
    requires Valid(srv)
    ensures Valid(r.0) && r.0.vapor.stopped && r.0.vapor.cache.items == map[]
    ensures r.0.cancelled == srv.cancelled && r.0.options == srv.options
    ensures r.1.Keys == srv.vapor.cache.items.Keys
    ensures forall k :: k in r.1 ==>
      var before := srv.vapor.cache.items[k].value.value;
      r.1[k].stage == RestSession.Finished &&
      r.1[k].cause == (if before.cause.Some? then before.cause else Some(Proto.Failed("server closing")))
  {
    var h := Hooks(srv, env);
    var drained := Vapor.EvictAfter(srv.vapor, h, true);
    var causes := map k | k in drained.visited :: Proto.Failed("server closing");
    var (v2, _) := Vapor.Close(drained.vapor, h);
    (srv.(vapor := v2), CloseAll(drained.visited, causes, env))
  }

  // ---------------------------------------------------------------------------
  // Properties

  /** A new server, whatever options it was given, has a one-minute timeout
      and the minimum output bound for its sessions. */
  lemma OptionsIgnored(o: Options)
    ensures NewServer(o).options.timeout == Minute
    ensures RestSession.SetDefaults(NewServer(o).options.maxLines) == RestSession.MinMaxLines
  {
  }

  /** After `Close`, `/new` is answered 500 (the store refuses new sessions)
      rather than 503, because nothing cancels the server's context. */
  lemma ClosedServerRefusesNew(srv: Server, env: Env, body: string)
    requires Valid(srv) && !srv.cancelled && env.decodeCall(body).Some?
    ensures var closed := Close(srv, env).0;
      Serve(closed, env, Request(false, New(body))).1 == HttpError(500, "failed to create new process")
  {
    var closed := Close(srv, env).0;
    var (v1, created) := Vapor.GetNew(closed.vapor, Hooks(closed, env), RestSession.Zero(), closed.options.timeout as nat);
    assert created.Err?;
  }

  /** After `Close`, every session route answers "process not found". */
  lemma ClosedServerForgetsSessions(srv: Server, env: Env, id: string)
    requires Valid(srv) && !srv.cancelled && id != ""
    ensures var closed := Close(srv, env).0;
      Serve(closed, env, Request(false, StatusOf(id))).1 == HttpError(404, "process not found") &&
      Serve(closed, env, Request(false, Cancel(id))).1 == HttpError(404, "process not found")
  {
  }

  /** A session created by `/new` is running its call, with open input, no
      cause and no output yet. */
  lemma NewSessionIsFresh(srv: Server, env: Env, body: string, id: string)
    requires Valid(srv) && env.decodeCall(body).Some?
    requires Vapor.GetNew(srv.vapor, Hooks(srv, env), RestSession.Zero(), srv.options.timeout as nat).1.Ok?
    requires id == Vapor.GetNew(srv.vapor, Hooks(srv, env), RestSession.Zero(), srv.options.timeout as nat).1.value.0
    ensures var s1 := ServeNew(srv, env, body).0;
      id != "" && id in s1.vapor.cache.items &&
      var s := s1.vapor.cache.items[id].value.value;
      s.stage == RestSession.Running && s.inputOpen && s.cause.None? && s.buffer == "" &&
      s.call == env.decodeCall(body)
  {
    var h := Hooks(srv, env);
    var (v0, made) := Vapor.NewEntry(srv.vapor, h, RestSession.Zero(), srv.options.timeout as nat);
    assert made == Ok(id);
  }

  /** The status of a running session with no output is exactly
      `{"result":{"status":"pending"}}`. */
  lemma FreshStatusIsPending(srv: Server, env: Env, id: string)
    requires Valid(srv) && id != "" && id in srv.vapor.cache.items
    requires srv.vapor.cache.items[id].value.value.stage == RestSession.Running
    requires srv.vapor.cache.items[id].value.value.buffer == ""
    ensures ServeStatus(srv, env, id).1 == Response(200, true, "{\"result\":{\"status\":\"pending\"}}\n")
  {
    var s := srv.vapor.cache.items[id].value.value;
    assert RestSession.Status(s) == RestSession.StatusView("", None);
    RestSession.EmptyPendingStatus(env.quote, env.encode);
  }

  /** Cancelling a session whose context has no cause yet makes "client
      requested cancellation" its cause. */
  lemma CancelSetsCause(srv: Server, env: Env, id: string)
    requires Valid(srv) && !srv.cancelled && id != "" && id in srv.vapor.cache.items
    requires srv.vapor.cache.items[id].value.value.cause.None?
    ensures var r := Serve(srv, env, Request(false, Cancel(id)));
      r.0.vapor.cache.items[id].value.value.cause == Some(Proto.ClientRequest)
  {
  }
}
