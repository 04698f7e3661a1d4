# process_over_websocket, modelled in Dafny

process_over_websocket runs one named process per connection. A client sends
a call message (a process name and string parameters), streams text input,
may signal "close input" or "cancel", receives the process's output as log
lines, and finally gets one result: fulfilled with a value, or rejected with
a reason.

This project models the core of that protocol:

- the TypeScript client `Call`: connection, hooks, sends, the close-code
  ladder that turns a close frame into a result, and the watchdog for a
  socket stuck in CLOSING;
- the protocol package: sentinels, call messages, and the
  `{"status":…}` result envelope;
- the two WebSocket servers. They share one reader loop and one input pump,
  modelled once. Each server has its own path check, call phase and exit
  framing;
- path cleaning;
- the ordered map and its JSON encoding and decoding;
- the REST transport: the session lifecycle, the HTTP handlers and server
  shutdown;
- the three expiring stores the REST transport uses or carries: the newer
  `Vapor`, the older `Vapor` and `ExpireAble`.

Every operation is a pure function over immutable data. Time is a logical
clock. Goroutines, channels and sockets become sequences of events and
effects. Whatever lies outside the core is a function parameter: JSON
encoding and decoding, random ids, `Make`, and the way a process ends.

Modules, one per source component: `Wrappers`, `Json`, `Proto`, `ClientCall`,
`CloseWatchdog`, `FrameDispatch`, `WsImpl`, `WsServer`, `CleanPath`,
`OrderedMap`, `OmapJson`, `TtlCache`, `Vapor`, `LegacyVapor`, `ExpireAble`,
`RestSession`, `RestServe`.

Where the code and its documentation disagree, the model follows the code:

- `clean.Clean` is documented to always end in '/'. It does not: `"a"`
  cleans to `"/a"` (`CleanPath.NoSlashAdded`).
- The request-path prefix test is not segment-aware: a server at `/api`
  accepts `/apiary` (`WsImpl.PrefixIsNotSegmentAware`).
- The REST `NewServer` drops the options it is given
  (`RestServe.OptionsIgnored`).
- `Session.Stage` reports "started" only for a finished session
  (`RestSession.StageFlags`).
- The client fires `onLogLine` even after the call has settled. Nothing in
  its code prevents that.

## Model

| member | source | states |
|---|---|---|
| `Json.Property` | client/websocket/index.ts:114 | A field read yields a value exactly when the parsed value is an object holding the key; arrays carry no named fields. |
| `ClientCall.InterpretClose` | client/websocket/index.ts:94-130 | The close ladder, rule by rule. An abnormal code fails with the raw reason. Otherwise each of the four diagnostics, the string `data` of `success:false`, and `data` (possibly undefined) of `success:true` appear in the order the code tests them. |
| `ClientCall.SuccessIff` | client/websocket/index.ts:96-130 | A call succeeds if and only if the close was normal and the reason parses to a value whose `success` field is `true`. |
| `ClientCall.FailureOrigin` | client/websocket/index.ts:96-128 | Every failure message is the raw reason of an abnormal close, one of the fixed diagnostics after a normal close, or the string `data` of a `success:false` object. |
| `ClientCall.ReadSpecJson` | client/websocket/index.ts:64 | The call specification the client sends as its first message decodes into a CallMessage with the same name and parameters. |
| `ClientCall.ReadSignalJson` | client/websocket/index.ts:185 | The `{signal: name}` messages `cancel()` and `closeInput()` send read back, through decoding into a SignalMessage, as the same token. |
| `ClientCall.AuthHeader` | client/websocket/index.ts:54 | An Authorization header is sent if and only if the remote has a token, and it is "Bearer " followed by the token. |
| `ClientCall.Settled` | client/websocket/index.ts:52 | A settlement is recorded only while the promise is pending; nothing else in the call changes. |
| `ClientCall.Connect` | client/websocket/index.ts:44-55 | `connect()` is async: a second call returns a promise rejected with "connect() may only be called once" and changes nothing. The first sets the guard before the socket exists. If the `WebSocket` constructor throws, the promise is rejected with that error and the handle stays null. Otherwise the socket is opened with protocol "pow-1" and the Authorization header, and the handle is set. |
| `ClientCall.OnOpen` | client/websocket/index.ts:57-69 | On open, the watchdog is armed, `beforeCall` runs if set, the call specification is sent, then `onConnect` runs if set. Exactly one message is sent. |
| `ClientCall.OnMessage` | client/websocket/index.ts:71-82 | Only string data reaches `onLogLine`, and only when that hook is set; nothing else changes. |
| `ClientCall.Close` | client/websocket/index.ts:202-210 | The private `close()` throws "websocket not connected" on a null handle; otherwise it closes the socket and clears the handle. |
| `ClientCall.OnError` | client/websocket/index.ts:84-92 | On error with a live handle, the socket is closed, then `onError`, then the rejection. On a null handle, `close()` throws and the rest of the handler is skipped. |
| `ClientCall.OnClose` | client/websocket/index.ts:94-133 | On close, the promise resolves with the interpreted result. Only a success goes on to `close()`, which throws when the handle is already null. A failure leaves the handle alone. |
| `ClientCall.SendText` | client/websocket/index.ts:169-176 | On a null handle `sendText` throws "websocket not connected". Otherwise `ws.send` throws on a socket still CONNECTING, drops the text without error on one CLOSING or CLOSED, and sends it as a text frame on one OPEN. |
| `ClientCall.SendSignal` | client/websocket/index.ts:179-199 | `cancel()` and `closeInput()` follow the same rules as `sendText`: "websocket not connected" on a null handle, a throw while CONNECTING, nothing while CLOSING or CLOSED, and the `{signal:"cancel"}` or `{signal:"close"}` binary message while OPEN. |
| `ClientCall.Tick` | client/websocket/index.ts:146-165 | One poll terminates the socket exactly when the one-shot timer reaches 500 ms and the socket is still CLOSING. |
| `ClientCall.SecondConnectFails` | client/websocket/index.ts:46-49 | After `connect()`, any later `connect()` throws, whatever events came in between. |
| `ClientCall.ReleasedStaysReleased` | client/websocket/index.ts:169-210 | Once the handle is released it is never set again, so every later send-type operation throws "websocket not connected", whatever state the socket is in. |
| `ClientCall.FirstSettlementWins` | client/websocket/index.ts:84-133 | The first settlement survives every later event: a close after an error cannot change the outcome. |
| `ClientCall.SendsFailBeforeConnect` | client/websocket/index.ts:169-199 | Before `connect()`, `sendText`, `cancel` and `closeInput` all throw "websocket not connected", whatever state the socket is in. |
| `ClientCall.RefusedConnectRejects` | client/websocket/index.ts:52-55 | When the `WebSocket` constructor throws, the call stays rejected with that error through any later events, and no handle is ever set. |
| `CloseWatchdog.Arm` | client/websocket/index.ts:57-58 | Arming starts polling once; a watchdog that is already armed is unchanged. |
| `CloseWatchdog.Tick` | client/websocket/index.ts:146-165 | The poll continues while the socket is OPEN or CONNECTING behind a non-null handle. The first other observation clears the interval, and only CLOSING arms the timer. `terminate()` happens if and only if the timer fires with the socket still CLOSING. |
| `CloseWatchdog.DoneIsFinal` | client/websocket/index.ts:154-157 | Once the interval is cleared and no timer is pending, nothing ever happens again. |
| `CloseWatchdog.TerminatesAtMostOnce` | client/websocket/index.ts:159-164 | `terminate()` is called at most once over any run. |
| `CloseWatchdog.PollsWhileLive` | client/websocket/index.ts:148-151 | While every poll sees a live socket, the watchdog keeps polling and never terminates. |
| `CloseWatchdog.TimerFiresOnce` | client/websocket/index.ts:159-164 | The timer fires on the tick that reaches 500 ms and terminates exactly when the socket is CLOSING at that tick. |
| `CloseWatchdog.ClosingThenTimeout` | client/websocket/index.ts:143-164 | When the first poll sees CLOSING, `terminate()` runs if and only if the socket is still CLOSING five polls (500 ms) later. |
| `Proto.DecodeString` | proto/proto.go:14 | Decoding a member into a string field: absent or null gives "", a string is taken, and any other value fails. |
| `Proto.DecodeStrings` | proto/proto.go:15 | Decoding a member into a string slice: absent or null gives no elements. An array of strings and nulls gives its elements, with null read as "". Any other value fails. |
| `Proto.ReadCallMessage` | proto/proto.go:13-16 | Decoding into a CallMessage: null is the zero message, other non-objects fail, and an object decodes if and only if its `call` and `params` members do, into exactly those values. |
| `Proto.ReadSignal` | proto/proto.go:19-21 | Decoding into a SignalMessage: null is "", other non-objects fail, an object gives its `signal` member as a string field, and a string `signal` is read as it is. |
| `Proto.OmittedParams` | proto/proto.go:15 | `{"call":x}`, the form `omitempty` writes for no parameters, decodes as the call x with no parameters. |
| `Proto.ZeroCallMessage` | proto/proto.go:13-16 | `{}` and `null` both decode, as the message naming the process "" with no parameters. |
| `Proto.MistypedCallMessage` | proto/proto.go:13-16 | A non-string `call`, a non-string parameter, or an array document fails to decode. |
| `Proto.Render` | proto/proto.go:72-75 | The envelope text always begins `{"status":"` and ends with `}`. |
| `Proto.ReadRender` | proto/proto.go:72-75 | The envelope text is unambiguous: reading it back yields the status and the payload it was rendered from. |
| `Proto.NonEmpty` | proto/proto.go:65-72 | A failed or empty encoding leaves no payload; a payload, when present, is never empty. |
| `Proto.EnvelopeOf` | proto/proto.go:41-70 | A nil result is pending. No reason means fulfilled with the encoded value. A reason means rejected with the encoded error text, and the value is ignored. |
| `Proto.MarshalResult` | proto/proto.go:41-76 | A nil result is exactly `{"status":"pending"}`. Any other result reads back as the status its reason selects, with the payload under "value" or "reason", or with no payload when encoding failed or gave nothing. |
| `Proto.RejectedIgnoresValue` | proto/proto.go:59-62 | When a reason is present, two results that differ only in value marshal identically. |
| `Proto.FulfilledShape` | proto/proto.go:75 | A fulfilled result whose value encodes to `c` is exactly `{"status":"fulfilled","value":c}`. |
| `Proto.OmittedPayloadShape` | proto/proto.go:66-73 | When encoding fails, the text is just `{"status":"fulfilled"}` or `{"status":"rejected"}`. |
| `FrameDispatch.Classify` | internal/ws_impl/serve.go:155-213 | Dispatch rules. A text frame is always input, with nil read as empty, and is never the end marker. Frames that are neither text nor binary are ignored. The first binary frame is the call. Later binary frames are signals: close → end marker; first cancel → cancel with "client requested cancellation"; second cancel → end marker; anything else → protocol error. Connection end → finish. |
| `FrameDispatch.Cancelled` | internal/ws_impl/serve.go:137 | Cancelling a cause-carrying context sets the cause only the first time. |
| `FrameDispatch.Step` | internal/ws_impl/serve.go:146-214 | One iteration of the reader loop. The first cause stands, the flags and the delivered call only go from unset to set, and input only grows at its end. Leaving the loop before a call closes `initialMessage`, which then yields nil. A stopped reader is unchanged. |
| `FrameDispatch.RunKeepsCall` | internal/ws_impl/serve.go:172-178 | Once the call has been delivered, no later frame replaces it. |
| `FrameDispatch.RunWhileStopped` | internal/ws_impl/serve.go:210-212 | After the connection ends, the reader does nothing more. |
| `FrameDispatch.FirstBinaryIsTheCall` | internal/ws_impl/serve.go:146-178 | The call phase receives exactly the first binary frame that arrives before the connection ends, or the nil item of the closed channel when the connection ends first. A call is delivered if and only if such a frame exists. |
| `FrameDispatch.GoneBeforeCall` | internal/ws_impl/serve.go:146 | When the connection ends before any binary frame, `initialMessage` yields nil and no call is delivered. |
| `FrameDispatch.CauseIsFinal` | internal/ws_impl/serve.go:137 | Once the context has a cause, no later event changes it. |
| `FrameDispatch.TextInputs` | internal/ws_impl/serve.go:158-163 | The input contributed by text frames contains no end markers and is no longer than the frames. |
| `FrameDispatch.TextFramesOnlyAppend` | internal/ws_impl/serve.go:158-163 | A run of text frames appends their bodies to the input, in order, and changes nothing else. |
| `FrameDispatch.CancelTwice` | internal/ws_impl/serve.go:194-202 | The first cancel signal sets the cause to "client requested cancellation" and leaves the input alone. A second cancel ends the input and keeps that cause. |
| `FrameDispatch.Pump` | internal/ws_impl/serve.go:248-260 | The pipe receives exactly the bodies before the first end marker, in order. Everything after the marker is drained. |
| `FrameDispatch.TextThenClose` | internal/ws_impl/serve.go:245-261 | Text frames followed by a close signal give input that is those bodies and then the marker. All of the bodies reach the pipe, and nothing is left to drain. |
| `FrameDispatch.PumpStopsAtEnd` | internal/ws_impl/serve.go:248-256 | Bodies followed by the end marker are all written, and nothing is drained. |
| `WsImpl.ServerPath` | internal/ws_impl/serve.go:33 | The server's path is cleaned: non-empty and rooted. |
| `WsImpl.WithSlash` | internal/ws_impl/serve.go:81-83 | The request path gets a trailing '/' if and only if it has none. |
| `WsImpl.IsValidRequestPath` | internal/ws_impl/serve.go:80-85 | A request path is valid if and only if the server path begins it, or the server path is the request path plus the one trailing '/' the request path lacks. |
| `WsImpl.SlashedPrefix` | internal/ws_impl/serve.go:81-84 | Testing the prefix after appending the missing '/' is the same as testing the bare path, except that the whole slashed path also matches. |
| `WsImpl.RootAcceptsAll` | internal/ws_impl/serve.go:80-85 | A server at the root accepts every rooted request path. |
| `WsImpl.AcceptsOwnPath` | internal/ws_impl/serve.go:80-85 | A server accepts its own cleaned path, with or without the trailing '/'. |
| `WsImpl.PrefixIsNotSegmentAware` | internal/ws_impl/serve.go:84 | A server at "/api" also accepts "/apiary". |
| `WsImpl.ServeHttp` | internal/ws_impl/serve.go:72-78 | A request goes on to the upgrade if and only if its path is valid; otherwise the answer is 404. |
| `WsImpl.CallPhase` | internal/ws_impl/serve.go:217-236 | Nothing received in time gives "timeout expired". An item that does not decode gives "protocol error occurred". A handler error is wrapped as "failed to get process: …". Otherwise the process is found. |
| `WsImpl.ServeReturn` | internal/ws_impl/serve.go:273-277 | `serve` returns a value if and only if it returns no error. A process error is wrapped as "process returned error: …". |
| `WsImpl.FinalReturn` | internal/ws_impl/serve.go:106-109 | A recovered panic replaces the outcome with "unknown error: <value>". |
| `WsImpl.ExitFrames` | internal/ws_impl/serve.go:102-127 | Nothing is written once the connection is done or the result write fails. Otherwise the marshalled result is written, reading back as the envelope of the final outcome, followed by an empty close frame. |
| `WsImpl.BadCallIsRejected` | internal/ws_impl/serve.go:224-226 | A call that does not decode ends in a rejected envelope whose reason is "protocol error occurred". |
| `WsImpl.CallIsFirstBinary` | internal/ws_impl/serve.go:146-178 | What the call phase receives is the first binary frame of the connection, or nil when the connection ends before one. |
| `WsImpl.GoneBeforeCallIsProtocolError` | internal/ws_impl/serve.go:219-226 | A connection that ends before its first binary frame fails at once with "protocol error occurred", not with a timeout. |
| `WsServer.CallPhase` | internal/wsserver/serve.go:156-175 | As in ws_impl, except that a handler error is returned unwrapped. |
| `WsServer.CloseFor` | internal/wsserver/serve.go:61-65 | A nil error closes with 1000 and an empty reason. Any other error closes with the failure code and the error text. |
| `WsServer.Serve` | internal/wsserver/serve.go:38-209 | A wrong subprotocol closes with a policy violation and serves nothing. Otherwise the error is that of the call phase or the process; a recovered panic replaces it, and the close frame is chosen from the result. |
| `WsServer.NormalCloseIff` | internal/wsserver/serve.go:61-65 | The connection closes normally if and only if the call arrived, decoded, was found, ran without error and did not panic. |
| `WsServer.TimeoutClose` | internal/wsserver/serve.go:167-168 | When neither a call nor the end of the connection comes in time, the connection closes with the failure code and "timeout expired". |
| `WsServer.GoneBeforeCallClose` | internal/wsserver/serve.go:85 | A connection that ends before its first binary frame closes with the failure code and "protocol error occurred". |
| `CleanPath.Resolve` | internal/clean/path.go:25 | The `path.Clean` walk leaves only real segments: no empty, "." or ".." segments. |
| `CleanPath.Clean` | internal/clean/path.go:17-38 | The result is never empty and always starts with '/'; the empty path cleans to "/". |
| `CleanPath.CleanSegments` | internal/clean/path.go:10-12 | A cleaned path starts with '/' and never contains a "." or ".." segment. |
| `CleanPath.CleanCases` | internal/clean/path.go:27-36 | The fast path and the slow path agree. The result is the cleaned path plus '/' if the input ends in '/' and does not clean to the root; otherwise it is the cleaned path. |
| `CleanPath.TrailingSlash` | internal/clean/path.go:29-36 | The result ends in '/' if and only if the input did or the result is the root. |
| `CleanPath.NoSlashAdded` | internal/clean/path.go:13 | Contrary to the doc comment, "a" cleans to "/a", without a trailing '/'. |
| `CleanPath.Idempotent` | internal/clean/path.go:17-38 | Cleaning a cleaned path changes nothing. |
| `OrderedMap.Find` | internal/omap/omap.go:19-24 | Finds the first entry with the key, or reports that no entry has it. |
| `OrderedMap.Set` | internal/omap/omap.go:18-26 | An existing key has its first entry's value replaced in place. A new key is appended at the end. |
| `OrderedMap.Get` | internal/omap/omap.go:29-36 | Found if and only if some entry has the key, and then the value is that of the first such entry. Otherwise it returns nil and false. |
| `OrderedMap.SetExistingKeepsOrder` | internal/omap/omap.go:19-23 | Overwriting keeps the length and the key order. |
| `OrderedMap.GetAfterSet` | internal/omap/omap.go:18-36 | After `Set(k, v)`, `Get(k)` finds v. |
| `OrderedMap.SetLeavesOthers` | internal/omap/omap.go:18-26 | `Set(k, ·)` leaves `Get` of every other key unchanged. |
| `OrderedMap.GetAbsent` | internal/omap/omap.go:35 | A key no entry has gives the nil value and false. |
| `OrderedMap.SetKeepsKeysDistinct` | internal/omap/omap.go:18-26 | Keys that were pairwise distinct stay so under `Set`. |
| `OmapJson.Marshal` | internal/omap/marshal.go:10-39 | A nil map is `null`, an empty one `{}`, and any other is a brace-delimited object. |
| `OmapJson.ReadValue` | internal/omap/marshal.go:100-121 | `readValue` consumes at least one token. A closing token reports `errObjectEnded` just after itself. |
| `OmapJson.ReadItems` | internal/omap/marshal.go:107-115 | The container loop ends after the closing token, and fails only when the decoder fails. |
| `OmapJson.ParseValue` | internal/omap/marshal.go:87-95 | Yields the text after the first ':' of the slice, or nil when there is no ':'. |
| `OmapJson.ParseAfterColon` | internal/omap/marshal.go:87-95 | Whitespace before the ':' is skipped; the raw value keeps everything after it. |
| `OmapJson.Unmarshal` | internal/omap/marshal.go:44-56 | A decoder error or a first token other than '{' leaves the receiver untouched. Otherwise the receiver is replaced by a non-nil map. |
| `OmapJson.ReadEntries` | internal/omap/marshal.go:58-83 | The entry loop always leaves a non-nil map holding the entries read so far. |
| `OmapJson.RoundTrip` | internal/omap/marshal.go:10-84 | Decoding what `MarshalJSON` wrote yields the same entries in the same order, whatever the receiver held, when each raw value is one JSON value. |
| `OmapJson.NilDoesNotRoundTrip` | internal/omap/marshal.go:11-53 | A nil map marshals to `null`, which decoding refuses with "expected object start", keeping the receiver. |
| `TtlCache.Empty` | internal/vapor/vapor.go:133 | A new cache holds nothing. |
| `TtlCache.Insert` | internal/vapor/vapor.go:107 | `GetOrSet` of an id not held stores it with its time-to-live and deadline, leaving every other item as it was. |
| `TtlCache.Touch` | internal/vapor/vapor.go:207 | A hit moves the item's deadline a full time-to-live past now and changes nothing else. |
| `TtlCache.Replace` | internal/vapor/vapor.go:121-126 | A write through the held pointer changes the value but not its deadline. |
| `TtlCache.Remove` | internal/vapor/vapor.go:220 | `Delete` removes exactly that id. |
| `TtlCache.Advance` | internal/vapor/vapor.go:134-152 | When time passes, exactly the items whose deadline has come are evicted; the rest stay as they were. |
| `TtlCache.KeepAlive` | internal/vapor/vapor.go:202-203 | An item read within its time-to-live is still held. |
| `TtlCache.ExpiresUnread` | internal/vapor/vapor.go:17-20 | An item left unread until its deadline is evicted. |
| `TtlCache.NoTtlNeverExpires` | internal/vapor/vapor.go:107 | An item with a zero time-to-live never expires. |
| `Vapor.Empty` | internal/vapor/vapor.go:130-133 | A new vapor is empty and not stopped. |
| `Vapor.Init` | internal/vapor/vapor.go:121-125 | Initialisation runs at most once; an initialised entry is left as it is. |
| `Vapor.InitOnce` | internal/vapor/vapor.go:119-127 | Initialising twice equals initialising once. A nil `Initialize` keeps the zero value; otherwise `Initialize` is applied to it. |
| `Vapor.InitItem` | internal/vapor/vapor.go:119-127 | Returns the initialised value and stores it, leaving its deadline and every other element alone. |
| `Vapor.PickId` | internal/vapor/vapor.go:92-115 | The id loop skips empty ids and held ids, fails at the first non-empty id on a stopped vapor, and makes at most `maxNewIDCalls` calls. |
| `Vapor.NewEntry` | internal/vapor/vapor.go:85-116 | A nil `NewID` is `errNewIDNil`. A created id is non-empty and was not held, and is stored unset with the requested time-to-live. Every element held before stays as it was, and errors leave the store unchanged. |
| `Vapor.GetNew` | internal/vapor/vapor.go:191-198 | `newEntry` followed by initialisation: returns the id and the initialised value, or `newEntry`'s error. |
| `Vapor.Get` | internal/vapor/vapor.go:204-213 | A missing id is `errNotFound`. Otherwise the element's deadline is extended and its initialised value returned. |
| `Vapor.Finals` | internal/vapor/vapor.go:134-151 | Finalize is called once per evicted element, on its initialised value, with the given reason, and never when Finalize is nil. |
| `Vapor.Evict` | internal/vapor/vapor.go:217-221 | A missing id has no effect. A held element is removed and finalised with reason Deleted. |
| `Vapor.Advance` | internal/vapor/vapor.go:134-152 | Elements whose deadline has come are removed and finalised with reason Expired; the rest are untouched. |
| `Vapor.EvictAfter` | internal/vapor/vapor.go:225-259 | The vapor stops, `f` runs on every live element, initialised, and all elements are removed. Live ones are finalised as Deleted and already-expired ones as Expired. |
| `Vapor.Close` | internal/vapor/vapor.go:262-264 | Every element is deleted and finalised as Deleted; the stopped flag is not changed. |
| `Vapor.PickFindsFirstFree` | internal/vapor/vapor.go:92-115 | On a running vapor the loop takes exactly the first fresh non-empty id among its calls, and runs out only when none exists. |
| `Vapor.NewEntryFindsFirstFree` | internal/vapor/vapor.go:85-116 | On a running vapor, `newEntry` succeeds if and only if a fresh non-empty id comes up within its calls, and returns the first one. |
| `Vapor.StoppedCreatesNothing` | internal/vapor/vapor.go:100-105 | A stopped vapor creates nothing. Its error is `errStopped` if and only if a non-empty id came up; otherwise it is `errNoID`. |
| `Vapor.EvictAfterStopsCreation` | internal/vapor/vapor.go:223-230 | After `EvictAfter`, `New` and `GetNew` always fail. |
| `Vapor.GetKeepsAlive` | internal/vapor/vapor.go:202-203 | An element read within its time-to-live is not evicted by time. |
| `Vapor.UnreadExpires` | internal/vapor/vapor.go:17-20 | An element left unread until its deadline is finalised as Expired, with its initialised value. |
| `Vapor.FinalizeSeesInitialised` | internal/vapor/vapor.go:45-51 | Finalize sees the value that initialisation produced, and initialisation runs only once. |
| `Vapor.CloseFinalisesAll` | internal/vapor/vapor.go:261-264 | With Finalize set, `Close` finalises every element exactly once, as Deleted. |
| `LegacyVapor.PickId` | internal/rest_impl/vapor.go:86-101 | The older id loop skips empty and held ids and takes the first other one within `maxNewIDCalls` calls. |
| `LegacyVapor.NewEntry` | internal/rest_impl/vapor.go:79-102 | A nil `NewID` is `errNewIDNil`. A created id is non-empty and fresh, and held elements stay as they were. |
| `LegacyVapor.InitItem` | internal/rest_impl/vapor.go:105-113 | Returns the initialised value and marks the element initialised. |
| `LegacyVapor.GetNew` | internal/rest_impl/vapor.go:174-181 | Returns the new element initialised, without its id. |
| `LegacyVapor.Get` | internal/rest_impl/vapor.go:187-196 | A missing id is `errNotFound`. Otherwise the element is touched and its initialised value returned. |
| `LegacyVapor.Evict` | internal/rest_impl/vapor.go:200-204 | A missing id has no effect. Otherwise the element is removed and finalised as Deleted when Finalize is set. |
| `LegacyVapor.Close` | internal/rest_impl/vapor.go:207-209 | Every element is deleted and finalised as Deleted. |
| `LegacyVapor.PickAgrees` | internal/rest_impl/vapor.go:86-101 | The older loop picks the same id as the newer loop on a vapor that was never stopped. |
| `LegacyVapor.NewEntryAgrees` | internal/rest_impl/vapor.go:79-102 | Without a stop, the older and newer `newEntry` produce the same store, the same calls and the same result. |
| `LegacyVapor.GetNewAgrees` | internal/rest_impl/vapor.go:174-181 | The older `GetNew` is the newer one with the id dropped. |
| `LegacyVapor.GetEvictAgree` | internal/rest_impl/vapor.go:187-204 | The older `Get` and `Evict` behave exactly as the newer ones. |
| `ExpireAble.Force` | internal/rest_impl/expirable.go:33-35 | A made value is returned as it is. An unmade one is made by the next call of `Make` and stored. |
| `ExpireAble.PickId` | internal/rest_impl/expirable.go:81-89 | Takes the first id not held, the empty id included, within `maxNewIDCalls` calls. |
| `ExpireAble.New` | internal/rest_impl/expirable.go:78-91 | At most 10000 calls of `MakeID`. A returned id is the last one called and was not held, and is stored unmade. `errNoID` comes only after every call gave a held id, with the store unchanged. |
| `ExpireAble.Get` | internal/rest_impl/expirable.go:96-106 | A missing id gives the zero value and `errNotFound`. Otherwise the deadline is extended, and the value is made once if needed. |
| `ExpireAble.Expire` | internal/rest_impl/expirable.go:109-113 | A missing id has no effect. Otherwise the element is removed and closed, made first if it never was. |
| `ExpireAble.CloseEach` | internal/rest_impl/expirable.go:42-44 | The eviction hook on a batch removes exactly those ids and closes each one, and a value already made is closed as it is. |
| `ExpireAble.Close` | internal/rest_impl/expirable.go:116-118 | `Close` empties the store and closes one value per element. |
| `ExpireAble.Advance` | internal/rest_impl/expirable.go:42-44 | When time passes, exactly the expired elements leave the store. Each is closed in the listed order, an element already made is closed with its own value, and Make runs once for each expired element never read. |
| `ExpireAble.MakeAtMostOnce` | internal/rest_impl/expirable.go:29-35 | Reading twice calls `Make` at most once and returns the same value both times. |
| `ExpireAble.UnreadIsMadeToClose` | internal/rest_impl/expirable.go:42-44 | An element never read costs one call of `Make` when closed, and the made value is the one closed. |
| `ExpireAble.ReadValueIsClosed` | internal/rest_impl/expirable.go:42-44 | The value a reader got is the value closed on expiry. |
| `ExpireAble.EmptyIdAccepted` | internal/rest_impl/expirable.go:81-88 | Unlike the vapors, `New` accepts an empty id. |
| `ExpireAble.CloseClosesAll` | internal/rest_impl/expirable.go:67 | `DeleteAll` closes every element once, and a value already made is closed as it is. |
| `ExpireAble.CloseMakesUnread` | internal/rest_impl/expirable.go:42-44 | Closing a batch calls `Make` exactly once per never-read element and never for a read one. |
| `RestSession.SetDefaults` | internal/rest_impl/session.go:65-69 | An output bound below 1000 becomes 1000; a larger bound is kept. |
| `RestSession.Initialise` | internal/rest_impl/session.go:72-82 | `Init` gives the defaulted bound, a context with no cause and an open, empty input. The stage, call, output and result are untouched. |
| `RestSession.Start` | internal/rest_impl/session.go:85-100 | A session starts if and only if it is in the initial stage; it then runs the call. Any other session is unchanged. |
| `RestSession.Outcome` | internal/rest_impl/session.go:104-133 | A returned value and error are recorded as they are. A handler failure is "failed to get process: …", a panic is the recovered error, and an exit without return is "panic() in process". All of these have a nil value. |
| `RestSession.Cancel` | internal/rest_impl/session.go:171 | Cancelling sets the cause only if none is set; nothing else changes. |
| `RestSession.Finish` | internal/rest_impl/session.go:108-122 | When `run` ends, the input is closed and the context cancelled with "handler has returned", unless a cause stands. The outcome is recorded and the stage is finished. |
| `RestSession.Write` | internal/rest_impl/session.go:144-150 | While the input is open, the bytes reach the process. Afterwards every write fails with "failed to write input: io: read/write on closed pipe". |
| `RestSession.CloseInput` | internal/rest_impl/session.go:137-142 | Closing the input never fails, and changes only that. |
| `RestSession.CloseWith` | internal/rest_impl/session.go:165-177 | The call returns if and only if the session was started. The input is closed and the cause is the first one set. A running process finishes with its outcome; a finished session keeps its result. |
| `RestSession.StageFlags` | internal/rest_impl/session.go:183-196 | `running` holds exactly for a running session. `started` holds exactly for a finished one. |
| `RestSession.Status` | internal/rest_impl/session.go:226-249 | A session not started shows nothing. Otherwise it shows its output. There is a result if and only if the session finished, and then it is the recorded one. |
| `RestSession.BufferMember` | internal/rest_impl/session.go:204 | The buffer member is omitted if and only if the buffer is empty. |
| `RestSession.StatusJson` | internal/rest_impl/session.go:203-223 | The status document is an object whose `result` member is the result exactly as `proto.Result` marshals it. |
| `RestSession.StagesOnlyAdvance` | internal/rest_impl/session.go:89-119 | Starting, finishing and closing never move a session back a stage. |
| `RestSession.SetDefaultsIdempotent` | internal/rest_impl/session.go:65-69 | Applying the defaults twice equals applying them once, and the bound never decreases. |
| `RestSession.StartsOnce` | internal/rest_impl/session.go:89-92 | A second `Start` is refused and keeps the first call. |
| `RestSession.RunningIsPending` | internal/rest_impl/session.go:233-237 | A running session's status shows the pending result. |
| `RestSession.ExitedIsRejected` | internal/rest_impl/session.go:105-106 | A process that exits without returning finishes rejected with "panic() in process". |
| `RestSession.FirstCauseWins` | internal/rest_impl/session.go:121 | A cause given before the process returns stands; "handler has returned" does not override it. |
| `RestSession.ClosedInputRefusesWrites` | internal/rest_impl/session.go:144-150 | After `CloseInput`, writes fail and nothing more reaches the process. |
| `RestSession.EmptyPendingStatus` | internal/rest_impl/session.go:203-223 | With no output and no result, the document is exactly `{"result":{"status":"pending"}}`. |
| `RestServe.SetDefaults` | internal/rest_impl/serve.go:38-44 | A timeout below a minute becomes a minute; a longer one is kept. |
| `RestServe.NewServer` | internal/rest_impl/serve.go:22-27 | The given options are dropped: a new server has a one-minute timeout and zero session options. |
| `RestServe.FinalizeCause` | internal/rest_impl/serve.go:76-80 | An expired session is closed with "timeout expired"; a deleted one is left alone. |
| `RestServe.ServeNew` | internal/rest_impl/serve.go:109-130 | An undecodable body gives 400. A store failure gives 500. Otherwise the answer is 200 with the JSON id, and the new session, created with the server's timeout, is running the call. |
| `RestServe.Lookup` | internal/rest_impl/serve.go:134-145 | No id gives 400 "did not provide id". An unknown id gives 404 "process not found". Otherwise the session is returned and its deadline extended. |
| `RestServe.ServeStatus` | internal/rest_impl/serve.go:132-150 | 200 if and only if the id is held, and the body is then the session's status document. |
| `RestServe.ServeInput` | internal/rest_impl/serve.go:152-176 | "input sent" if and only if the body is empty or the input is open. The body reaches the process only while the input is open; otherwise the answer is 500. |
| `RestServe.ServeCloseInput` | internal/rest_impl/serve.go:178-202 | A held session's input is closed, and the answer is always "input closed". |
| `RestServe.ServeCancel` | internal/rest_impl/serve.go:204-225 | A held session is closed with "client requested cancellation", unless a cause stands, and finishes. The answer is "input closed". |
| `RestServe.Serve` | internal/rest_impl/serve.go:90-107 | A WebSocket upgrade gives 404, a cancelled server 503, and an unknown route the mux's 404. Every route keeps the server invariant. |
| `RestServe.CloseAll` | internal/rest_impl/serve.go:233 | Each session is closed with its own cause and waited for until finished. |
| `RestServe.Tick` | internal/rest_impl/serve.go:76-80 | When time passes, exactly the expired sessions leave the store, and each is closed with "timeout expired" unless a cause stands. |
| `RestServe.Close` | internal/rest_impl/serve.go:229-235 | Every session is closed with "server closing" and then deleted, and the store stops creating sessions. The server's context is not cancelled. |
| `RestServe.OptionsIgnored` | internal/rest_impl/serve.go:22-27 | Whatever options are passed, the timeout is one minute and sessions get the minimum output bound. |
| `RestServe.ClosedServerRefusesNew` | internal/rest_impl/serve.go:117-121 | After `Close`, `/new` gets 500 "failed to create new process", not 503. |
| `RestServe.ClosedServerForgetsSessions` | internal/rest_impl/serve.go:140-145 | After `Close`, every session route answers 404 "process not found". |
| `RestServe.NewSessionIsFresh` | internal/rest_impl/serve.go:118-125 | A session made by `/new` is running its call, with open input, no cause and no output. |
| `RestServe.FreshStatusIsPending` | internal/rest_impl/serve.go:147-149 | A running session with no output reports exactly `{"result":{"status":"pending"}}`. |
| `RestServe.CancelSetsCause` | internal/rest_impl/serve.go:219-220 | `/cancel` on a session with no cause makes "client requested cancellation" its cause. |

## Left out

- Concurrency. Goroutines, mutexes, `sync.Once`, wait groups and channel blocking are not modelled: each request, frame, poll or clock advance is one atomic step.
- Timers. `setInterval`/`setTimeout`, `readCallTimeout` and the ttlcache clock are logical. A call that arrives in time is an argument, not a race.
- JSON. Encoding, decoding and string quoting are function parameters. That covers `JSON.parse`/`JSON.stringify`, `json.Marshal`, `json.Unmarshal` and `json.Encoder` with its HTML escaping and compaction.
- Socket I/O. Opening, sending and closing a socket are effects or close frames; the bytes on the wire are not modelled.
- Subprotocol enforcement. The upgrade itself and the ws_impl check that panics on a wrong subprotocol belong to the WebSocket library and are not modelled.
- internal/finbuf (the output line buffer) is not part of this model. The session's output is the text the buffer renders, and `MaxLines` is only recorded.
- `RestSession.Emit` stands for the process writing to that buffer and is not tied to a source line.
- `Session.Wait` is not modelled on its own. Waiting for the process appears only inside `RestSession.CloseWith`, which returns `None` when it would block forever on a session never started.
- Pipe writes block until read. The model delivers them at once. `io.Copy` in `/input` is one write of the whole body.
- `errorsx.Close` and the error `writer.Close` adds to ws_impl's result are not modelled: closing a pipe never fails.
- The `recovery.Recover` library formats a recovered panic. Its text is not modelled; a panic becomes `Recovered(value)`.
- The vapors' lazy start (`start`, the `started` flag, the background sweeper goroutine) is not modelled. The sweeper is taken to evict an item as soon as its deadline passes.
- A zero time-to-live is taken as "never expires", as ttlcache treats it. Touch-on-hit and the disabled touch of `GetOrSet` follow ttlcache.
- `ClientCall.SendText` and `ClientCall.SendSignal` give the error thrown on a CONNECTING socket the `ws` package's wording; a browser throws an InvalidStateError instead. The model keeps only that some error is thrown.
- Bulk eviction by `DeleteAll`, `EvictAfter` and the sweeper visits items in an unspecified order. The vapors report the results as maps. `ExpireAble.Close` and `ExpireAble.Advance` take the order as a parameter.
- The effect of `f` in `EvictAfter` on the stored value is not fed back before Finalize. `RestServe.Close` instead reports the sessions `f` closed.
- A nil `MakeID` or `Make` in `ExpireAble` would panic. Both are modelled as always set.
- The HTTP mux is not modelled. Its 405 for a wrong method and its path parsing are not modelled; the mux never yields an empty `{id}`, but the handlers' "did not provide id" branch is kept.
- `RestServe.NewServer` gives the server in its state after `doInit`. Nothing calls `server.cancel`, so the 503 branch of `ServeHTTP` is unreachable from `NewServer` and `Close`; it is modelled all the same.
- The rest_impl package declares `Vapor`, `entry`, `maxNewIDCalls`, `errNoID` and `errNotFound` in both vapor.go and expirable.go. The two files are modelled separately as `LegacyVapor` and `ExpireAble`.
- `json.Marshal` of a string key cannot fail, so the error return of the ordered map's marshaller is not modelled. A nil raw value and an empty one are both the empty text.
- The `Do` in internal/wsserver/serve.go returns only an error, which does not match the `proto.Process` interface. The model takes the process's error as its result.
- `proto.CloseReasonFailed` and `proto.MessageWrongSubprotocol` are parameters, because proto/proto.go does not declare them.
- The client's `afterCall` hook is declared but never invoked, so it has no effect in the model.
- The examples, the command-line client and the example server are not modelled.
- `RestServe` handlers (`ServeNew`, `Lookup`, `ServeStatus`, `ServeInput`, `ServeCloseInput`, `ServeCancel`, `Serve`, `Tick`, `Close`) require the server invariant `Valid`: every held session is initialised and started. `NewServer` establishes it and every handler preserves it. The window between `GetNew` and `Start` inside `/new` is not observable here.
- `OmapJson.RoundTrip` assumes the decoder reads each raw value as exactly one JSON value. Raw values that are not valid JSON are outside its claim.
- `OmapJson.RoundTrip` also assumes the decoder reads each `quote(k)` back as the string token `k`, with its offset just after the closing quote.
- `OmapJson.Unmarshal` takes the decoder's tokens and offsets as a parameter. `encoding/json`'s tokenizer is not modelled.
- JSON numbers are integers in the model. A non-integer `data` such as 1.5 in a success reason cannot be represented; no part of the model inspects a number.
- `Proto.ReadCallMessage` and `Proto.ReadSignal` match member names exactly. `encoding/json` also matches them case-insensitively (`"Call"`, `"SIGNAL"`); that is not modelled.
- Parsing bytes into a JSON document is a parameter. The reader loop's signal decoder and the call phase's call decoder are functions of the frame body; `json.Unmarshal` of nil fails, which the lemmas about a connection ending early take as given.
