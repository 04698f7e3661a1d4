/**
  The client's stuck-CLOSING watchdog (`_closeStateHack` in
  client/websocket/index.ts): a recurring poll that stops at the first state
  other than OPEN/CONNECTING and, when that state is CLOSING, arms a one-shot
  timer that terminates the socket if it is still CLOSING when the timer fires.

  Time is logical: one `Tick` is one poll interval. The one-shot timer is
  represented by the time elapsed since CLOSING was observed.
 */
module CloseWatchdog {

  /** `WebSocket.readyState`. */
  datatype ReadyState = Connecting | Open | Closing | Closed

  /** STATE_POLL_INTERVAL, in milliseconds. */
  const PollInterval: nat := 100
  /** CLOSE_TIMEOUT, in milliseconds, counted from the poll that saw CLOSING. */
  const CloseTimeout: nat := 500

  /** Idle: not armed yet. Polling: the interval is running. Waiting: the
      interval is cleared and the one-shot timer has been running for
      `elapsed` milliseconds. Done: nothing is scheduled any more. */
  datatype Watchdog = Idle | Polling | Waiting(elapsed: nat) | Done

  /** What the socket looks like to one poll: whether `this.ws` is non-null,
      and the ready state of the socket. */
  datatype Observation = Observation(handle: bool, state: ReadyState)

  /** Result of one tick: the next watchdog state, and whether the timer
      called `ws.terminate()` (after logging its warning). */
  datatype TickResult = TickResult(next: Watchdog, terminate: bool)

  predicate Live(o: Observation) {
    o.handle && (o.state == Open || o.state == Connecting)
  }

  /** Arming starts the poll; it is done once per session, on open. */
  function Arm(w: Watchdog): (r: Watchdog)
    ensures w.Idle? ==> r.Polling?
    ensures !w.Idle? ==> r == w
  {
    if w.Idle? then Polling else w
  }

  /** One poll interval of logical time. */
  function Tick(w: Watchdog, o: Observation): (r: TickResult)
    // keeps polling while OPEN or CONNECTING behind a non-null handle
    ensures w.Polling? && Live(o) ==> r == TickResult(Polling, false)
    // the first other observation clears the interval; only CLOSING arms the timer
    ensures w.Polling? && !Live(o) ==>
      !r.terminate && (r.next == if o.handle && o.state == Closing then Waiting(0) else Done)
    // termination only when the timer fires and the socket is still CLOSING
    ensures r.terminate <==>
      w.Waiting? && w.elapsed + PollInterval >= CloseTimeout && o.state == Closing
    ensures r.terminate ==> r.next == Done
    ensures w.Waiting? && w.elapsed + PollInterval < CloseTimeout ==> r.next == Waiting(w.elapsed + PollInterval)
    ensures w.Waiting? && w.elapsed + PollInterval >= CloseTimeout ==> r.next == Done
    ensures w.Idle? || w.Done? ==> r == TickResult(w, false)
  {
    match w
    case Idle => TickResult(Idle, false)
    case Done => TickResult(Done, false)
    case Polling =>
      if Live(o) then TickResult(Polling, false)
      else if o.handle && o.state == Closing then TickResult(Waiting(0), false)
      else TickResult(Done, false)
    case Waiting(elapsed) =>
      if elapsed + PollInterval < CloseTimeout then TickResult(Waiting(elapsed + PollInterval), false)
      // the timer fires; it looks at the socket it captured, whatever `this.ws` is now
      else TickResult(Done, o.state == Closing)
  }

  /** A run of the watchdog over a sequence of per-tick observations:
      the final state and the number of `terminate()` calls. */
  datatype RunResult = RunResult(final: Watchdog, terminations: nat)

  function Run(w: Watchdog, obs: seq<Observation>): RunResult
    decreases |obs|
  {
    if |obs| == 0 then RunResult(w, 0)
    else
      var t := Tick(w, obs[0]);
      var rest := Run(t.next, obs[1..]);
      RunResult(rest.final, rest.terminations + (if t.terminate then 1 else 0))
  }

  /** Once done, the watchdog stays done and never terminates. */
  lemma {:induction false} DoneIsFinal(obs: seq<Observation>)
    ensures Run(Done, obs) == RunResult(Done, 0)
    decreases |obs|
  {
    if |obs| > 0 {
      DoneIsFinal(obs[1..]);
    }
  }

  /** `terminate()` is called at most once over any run. */
  lemma {:induction false} TerminatesAtMostOnce(w: Watchdog, obs: seq<Observation>)
    ensures Run(w, obs).terminations <= 1
    decreases |obs|
  {
    if |obs| > 0 {
      var t := Tick(w, obs[0]);
      if t.terminate {
        DoneIsFinal(obs[1..]);
      } else {
        TerminatesAtMostOnce(t.next, obs[1..]);
      }
    }
  }

  /** While every poll sees a live socket the watchdog keeps polling and does nothing. */
  lemma {:induction false} PollsWhileLive(obs: seq<Observation>)
    requires forall i :: 0 <= i < |obs| ==> Live(obs[i])
    ensures Run(Polling, obs) == RunResult(Polling, 0)
    decreases |obs|
  {
    if |obs| > 0 {
      PollsWhileLive(obs[1..]);
    }
  }

  /** Number of ticks between observing CLOSING and the timer firing. */
  const TimerTicks: nat := CloseTimeout / PollInterval

  /** The one-shot timer: started `elapsed` ms ago, it fires on the tick that
      reaches CLOSE_TIMEOUT, terminating exactly when the socket is CLOSING at
      that tick, and the watchdog is done afterwards. */
  lemma {:induction false} TimerFiresOnce(elapsed: nat, obs: seq<Observation>)
    requires elapsed % PollInterval == 0 && elapsed < CloseTimeout
    requires |obs| >= (CloseTimeout - elapsed) / PollInterval
    ensures var k := (CloseTimeout - elapsed) / PollInterval - 1;
      Run(Waiting(elapsed), obs) ==
        RunResult(Done, if obs[k].state == Closing then 1 else 0)
    decreases CloseTimeout - elapsed
  {
    if elapsed + PollInterval < CloseTimeout {
      TimerFiresOnce(elapsed + PollInterval, obs[1..]);
    } else {
      DoneIsFinal(obs[1..]);
    }
  }

  /** From a polling watchdog whose first poll sees CLOSING, `terminate()` runs
      iff the socket is still CLOSING 500 ms (five polls) later. */
  lemma ClosingThenTimeout(obs: seq<Observation>)
    requires |obs| > TimerTicks
    requires obs[0].handle && obs[0].state == Closing
    ensures Run(Polling, obs).final == Done
    ensures Run(Polling, obs).terminations == if obs[TimerTicks].state == Closing then 1 else 0
  {
    TimerFiresOnce(0, obs[1..]);
  }
}
