/** Reference state machines for the two retry loops of `PalRcon` (and
    `AsyncPalRcon`): `connect`, with linear backoff, and `execute_command`,
    with bounded framing retries and at most one reconnect. A run is the
    sequence of events the loop went through; the outcomes of the I/O are
    chosen by the environment, everything else is decided by the machine. */
module Retry {
  import opened Errors
  import opened Models

  // ---------------------------------------------------------------- connect

  /** One connection attempt (`Rcon.connect`), or a `sleep(seconds)`. */
  datatype ConnectEvent = Tried(status: Status) | Backoff(seconds: int)

  datatype ConnectState =
    | Trying(attempt: int)       // about to make attempt number `attempt`
    | Waiting(attempt: int)      // attempt `attempt` failed, a sleep is due
    | Connected
    | GaveUp(error: Error)
    | ConnectStuck               // the event is not one the loop can produce

  /** One step of `PalRcon.connect`'s loop. */
  function ConnectStep(state: ConnectState, event: ConnectEvent, maxAttempts: int): ConnectState
  {
    match state
    case Trying(attempt) =>
      (match event
       case Tried(Done) => Connected
       case Tried(Failed(error)) =>
         if !IsConnectionLevel(error) || attempt == maxAttempts then GaveUp(error)
         else Waiting(attempt)
       case Backoff(_) => ConnectStuck)
    case Waiting(attempt) =>
      if event == Backoff(attempt) then Trying(attempt + 1) else ConnectStuck
    case _ => ConnectStuck
  }

  /** When each state arises: the loop connects exactly on a successful
      attempt, gives up on an error it does not retry or at the last
      attempt, and sleeps `attempt` seconds before the next attempt. */
  lemma ConnectStepCases(state: ConnectState, event: ConnectEvent, maxAttempts: int)
    ensures var r := ConnectStep(state, event, maxAttempts);
      && (r == Connected <==> state.Trying? && event == Tried(Done))
      && (r.GaveUp? <==>
            && state.Trying? && event.Tried? && event.status.Failed?
            && (!IsConnectionLevel(event.status.error) || state.attempt == maxAttempts))
      && (r.GaveUp? ==> r.error == event.status.error)
      && (r.Waiting? <==>
            && state.Trying? && event.Tried? && event.status.Failed?
            && IsConnectionLevel(event.status.error) && state.attempt != maxAttempts)
      && (r.Waiting? ==> r.attempt == state.attempt)
      && (r.Trying? <==> state.Waiting? && event == Backoff(state.attempt))
      && (r.Trying? ==> r.attempt == state.attempt + 1)
  {
  }

  /** The state after the given events, starting at attempt one. */
  function ConnectRun(events: seq<ConnectEvent>, maxAttempts: int): ConnectState
    decreases |events|
  {
    if events == [] then Trying(1)
    else ConnectStep(ConnectRun(events[..|events| - 1], maxAttempts), events[|events| - 1], maxAttempts)
  }

  /** Number of connection attempts in a run. */
  function Tries(events: seq<ConnectEvent>): nat
    decreases |events|
  {
    if events == [] then 0
    else Tries(events[..|events| - 1]) + (if events[|events| - 1].Tried? then 1 else 0)
  }

  /** The delays slept in a run, in order. */
  function ConnectDelays(events: seq<ConnectEvent>): seq<int>
    decreases |events|
  {
    if events == [] then []
    else
      var last := events[|events| - 1];
      ConnectDelays(events[..|events| - 1]) + (if last.Backoff? then [last.seconds] else [])
  }

  /** `[lo, lo + 1, ..., hi - 1]`. */
  function Range(lo: int, hi: int): (r: seq<int>)
    ensures |r| == if lo <= hi then hi - lo else 0
    ensures forall i :: 0 <= i < |r| ==> r[i] == lo + i
    decreases hi - lo
  {
    if lo >= hi then [] else Range(lo, hi - 1) + [hi - 1]
  }

  /** What holds in every state a connect run can reach: attempts are
      numbered from one and never exceed the budget, and the delays slept so
      far are 1, 2, ..., one per failed attempt that was retried. A run that
      gave up on a connection-level error used the whole budget. */
  lemma {:induction false} ConnectRunInvariant(events: seq<ConnectEvent>, maxAttempts: int)
    requires maxAttempts >= 1
    ensures var state := ConnectRun(events, maxAttempts);
      && (state.Trying? ==>
            1 <= state.attempt <= maxAttempts && Tries(events) == state.attempt - 1
            && ConnectDelays(events) == Range(1, state.attempt))
      && (state.Waiting? ==>
            1 <= state.attempt < maxAttempts && Tries(events) == state.attempt
            && ConnectDelays(events) == Range(1, state.attempt))
      && (state.Connected? || state.GaveUp? ==>
            1 <= Tries(events) <= maxAttempts && ConnectDelays(events) == Range(1, Tries(events)))
      && (state.GaveUp? && IsConnectionLevel(state.error) ==> Tries(events) == maxAttempts)
    decreases |events|
  {
    if events != [] {
      var init := events[..|events| - 1];
      ConnectRunInvariant(init, maxAttempts);
      var before := ConnectRun(init, maxAttempts);
      var event := events[|events| - 1];
      if before.Waiting? && event == Backoff(before.attempt) {
        assert ConnectDelays(events) == Range(1, before.attempt) + [before.attempt];
      }
    }
  }

  /** A finished connect run ends with the attempt that decided it: the
      error it gives up with is the last attempt's error, unchanged. */
  lemma {:induction false} ConnectRunEndsWithAttempt(events: seq<ConnectEvent>, maxAttempts: int)
    requires ConnectRun(events, maxAttempts).Connected? || ConnectRun(events, maxAttempts).GaveUp?
    ensures events != []
    ensures ConnectRun(events, maxAttempts).Connected? ==> events[|events| - 1] == Tried(Done)
    ensures ConnectRun(events, maxAttempts).GaveUp? ==>
      events[|events| - 1] == Tried(Failed(ConnectRun(events, maxAttempts).error))
  {
    assert events != [];
    var before := ConnectRun(events[..|events| - 1], maxAttempts);
    assert before.Trying?;
  }

  /** With a budget of one (the reconnect inside `execute_command`) connect
      never sleeps. */
  lemma SingleAttemptNeverSleeps(events: seq<ConnectEvent>)
    requires ConnectRun(events, 1).Connected? || ConnectRun(events, 1).GaveUp?
    ensures ConnectDelays(events) == [] && Tries(events) == 1
  {
    ConnectRunInvariant(events, 1);
  }

  /** Against a server that always rejects the login, connect with three
      attempts tries three times, sleeping 1 then 2, and gives up with the
      authentication error. */
  lemma ThreeRejectedLogins()
    ensures var events := [Tried(Failed(AuthenticationFailed)), Backoff(1),
                           Tried(Failed(AuthenticationFailed)), Backoff(2),
                           Tried(Failed(AuthenticationFailed))];
      ConnectRun(events, 3) == GaveUp(AuthenticationFailed)
      && Tries(events) == 3 && ConnectDelays(events) == [1, 2]
  {
    var fail := Tried(Failed(AuthenticationFailed));
    var events := [fail, Backoff(1), fail, Backoff(2), fail];
    assert events[..1] == [fail] && [fail][..0] == [];
    assert ConnectRun([fail], 3) == Waiting(1);
    assert events[..2] == [fail, Backoff(1)] && events[..2][..1] == [fail];
    assert ConnectRun(events[..2], 3) == Trying(2);
    assert events[..3][..2] == events[..2];
    assert ConnectRun(events[..3], 3) == Waiting(2);
    assert events[..4][..3] == events[..3];
    assert ConnectRun(events[..4], 3) == Trying(3);
    assert events[..4] == events[..|events| - 1];
    ConnectRunInvariant(events, 3);
  }

  // ------------------------------------------------------- execute_command

  /** One send-and-receive (`Rcon.execute_command`), one reconnect
      (`connect(max_attempts=1)`), or a `sleep(seconds)`. */
  datatype CommandEvent =
    | Exchanged(result: Result<Response>)
    | Reconnected(status: Status)
    | Paused(seconds: int)

  datatype CommandState =
    | Running(attempt: int, reconnected: bool)   // about to send, in attempt `attempt`
    | Reconnecting(attempt: int)                 // a connection-level error, reconnect due
    | Retrying(attempt: int, reconnected: bool)  // a framing error, a pause is due
    | Finished(result: Result<Response>)
    | CommandStuck

  /** One step of `PalRcon.execute_command`'s loop. */
  function CommandStep(state: CommandState, event: CommandEvent, maxAttempts: int): CommandState
  {
    match state
    case Running(attempt, reconnected) =>
      (match event
       case Exchanged(Ok(response)) => Finished(Ok(response))
       case Exchanged(Err(error)) =>
         if IsConnectionLevel(error) then
           (if reconnected then Finished(Err(error)) else Reconnecting(attempt))
         else if IsFraming(error) then
           (if attempt == maxAttempts then Finished(Err(error)) else Retrying(attempt, reconnected))
         else Finished(Err(error))
       case _ => CommandStuck)
    case Reconnecting(attempt) =>
      (match event
       case Reconnected(Done) => Running(attempt, true)
       case Reconnected(Failed(error)) => Finished(Err(error))
       case _ => CommandStuck)
    case Retrying(attempt, reconnected) =>
      if event == Paused(1) then Running(attempt + 1, reconnected) else CommandStuck
    case _ => CommandStuck
  }

  /** When each state arises: a reply finishes the run; a first
      connection-level error calls for a reconnect and a second one is
      raised; a framing error calls for a pause until the last attempt; a
      good reconnect resends in the same attempt and a pause moves to the
      next one. */
  lemma CommandStepCases(state: CommandState, event: CommandEvent, maxAttempts: int)
    ensures var r := CommandStep(state, event, maxAttempts);
      && (r.Finished? && r.result.Ok? <==> state.Running? && event.Exchanged? && event.result.Ok?)
      && (r.Finished? && state.Running? ==> event == Exchanged(r.result))
      && (r.Finished? && r.result.Err? ==>
            || (state.Running? && event == Exchanged(r.result))
            || (state.Reconnecting? && event == Reconnected(Failed(r.result.error))))
      && (r.Reconnecting? <==>
            && state.Running? && !state.reconnected && event.Exchanged? && event.result.Err?
            && IsConnectionLevel(event.result.error))
      && (r.Reconnecting? ==> r.attempt == state.attempt)
      && (r.Retrying? <==>
            && state.Running? && event.Exchanged? && event.result.Err?
            && !IsConnectionLevel(event.result.error) && IsFraming(event.result.error)
            && state.attempt != maxAttempts)
      && (r.Retrying? ==> r == Retrying(state.attempt, state.reconnected))
      && (r.Running? <==>
            (state.Reconnecting? && event == Reconnected(Done)) || (state.Retrying? && event == Paused(1)))
      && (r.Running? ==>
            r == (if state.Reconnecting? then Running(state.attempt, true)
                  else Running(state.attempt + 1, state.reconnected)))
  {
  }

  /** The state after the given events, starting at attempt one with no
      reconnect made. */
  function CommandRun(events: seq<CommandEvent>, maxAttempts: int): CommandState
    decreases |events|
  {
    if events == [] then Running(1, false)
    else CommandStep(CommandRun(events[..|events| - 1], maxAttempts), events[|events| - 1], maxAttempts)
  }

  /** Number of commands sent in a run. */
  function Sends(events: seq<CommandEvent>): nat
    decreases |events|
  {
    if events == [] then 0
    else Sends(events[..|events| - 1]) + (if events[|events| - 1].Exchanged? then 1 else 0)
  }

  /** Number of reconnects in a run. */
  function Reconnects(events: seq<CommandEvent>): nat
    decreases |events|
  {
    if events == [] then 0
    else Reconnects(events[..|events| - 1]) + (if events[|events| - 1].Reconnected? then 1 else 0)
  }

  /** The delays slept in a run, in order. */
  function CommandDelays(events: seq<CommandEvent>): seq<int>
    decreases |events|
  {
    if events == [] then []
    else
      var last := events[|events| - 1];
      CommandDelays(events[..|events| - 1]) + (if last.Paused? then [last.seconds] else [])
  }

  function Bit(b: bool): nat { if b then 1 else 0 }

  /** What holds in every state a command run can reach. Framing retries use
      up attempts, one second apart; the reconnect does not use an attempt and
      happens at most once. So a finished run sent at most `maxAttempts + 1`
      commands and slept at most `maxAttempts - 1` seconds. */
  lemma {:induction false} CommandRunInvariant(events: seq<CommandEvent>, maxAttempts: int)
    requires maxAttempts >= 1
    ensures var state := CommandRun(events, maxAttempts);
      && (!state.CommandStuck? ==>
            forall i :: 0 <= i < |CommandDelays(events)| ==> CommandDelays(events)[i] == 1)
      && (state.Running? ==>
            1 <= state.attempt <= maxAttempts
            && Sends(events) == state.attempt - 1 + Bit(state.reconnected)
            && Reconnects(events) == Bit(state.reconnected)
            && |CommandDelays(events)| == state.attempt - 1)
      && (state.Reconnecting? ==>
            1 <= state.attempt <= maxAttempts
            && Sends(events) == state.attempt && Reconnects(events) == 0
            && |CommandDelays(events)| == state.attempt - 1)
      && (state.Retrying? ==>
            1 <= state.attempt < maxAttempts
            && Sends(events) == state.attempt + Bit(state.reconnected)
            && Reconnects(events) == Bit(state.reconnected)
            && |CommandDelays(events)| == state.attempt - 1)
      && (state.Finished? ==>
            1 <= Sends(events) <= maxAttempts + 1 && Reconnects(events) <= 1
            && |CommandDelays(events)| <= maxAttempts - 1)
    decreases |events|
  {
    if events != [] {
      var init := events[..|events| - 1];
      CommandRunInvariant(init, maxAttempts);
      var event := events[|events| - 1];
      var extra := if event.Paused? then [event.seconds] else [];
      assert CommandDelays(events) == CommandDelays(init) + extra;
    }
  }

  /** A finished command run ends with the event that decided it, and returns
      that event's outcome unchanged. */
  lemma CommandRunEndsWithOutcome(events: seq<CommandEvent>, maxAttempts: int)
    requires CommandRun(events, maxAttempts).Finished?
    ensures events != []
    ensures var result := CommandRun(events, maxAttempts).result;
      events[|events| - 1] == Exchanged(result)
      || (result.Err? && events[|events| - 1] == Reconnected(Failed(result.error)))
  {
    assert events != [];
  }

  /** A framing error from a send is raised only when the attempts are used
      up: the run then sent one command per attempt (plus the one a
      reconnect repeated) and slept `maxAttempts - 1` times. */
  lemma FramingErrorAfterLastAttempt(events: seq<CommandEvent>, maxAttempts: int)
    requires maxAttempts >= 1
    requires CommandRun(events, maxAttempts).Finished?
    requires CommandRun(events, maxAttempts).result.Err?
    requires IsFraming(CommandRun(events, maxAttempts).result.error)
    requires events[|events| - 1].Exchanged?
    ensures |CommandDelays(events)| == maxAttempts - 1
    ensures Sends(events) == maxAttempts + Reconnects(events)
  {
    var init := events[..|events| - 1];
    CommandRunInvariant(init, maxAttempts);
    assert CommandDelays(events) == CommandDelays(init);
  }

  /** A connection-level error from a send is raised only after the one
      reconnect was spent. */
  lemma SecondConnectionErrorPropagates(events: seq<CommandEvent>, maxAttempts: int)
    requires maxAttempts >= 1
    requires CommandRun(events, maxAttempts).Finished?
    requires CommandRun(events, maxAttempts).result.Err?
    requires IsConnectionLevel(CommandRun(events, maxAttempts).result.error)
    requires events[|events| - 1].Exchanged?
    ensures Reconnects(events) == 1
  {
    var init := events[..|events| - 1];
    CommandRunInvariant(init, maxAttempts);
  }

  /** A framing error from the reconnect's login is not retried: it ends
      the run at once, whatever attempts are left, without a pause. */
  lemma ReconnectFramingErrorEndsRun(error: Error, maxAttempts: int)
    requires IsFraming(error)
    ensures var events := [Exchanged(Err(ConnectionError)), Reconnected(Failed(error))];
      CommandRun(events, maxAttempts) == Finished(Err(error)) && CommandDelays(events) == []
  {
    var events := [Exchanged(Err(ConnectionError)), Reconnected(Failed(error))];
    assert events[..1] == [events[0]] && events[..1][..0] == [];
    assert CommandRun(events[..1], maxAttempts) == Reconnecting(1);
    assert CommandDelays(events[..1]) == [];
    assert events[..|events| - 1] == events[..1];
  }

  /** After a connection error and a successful reconnect the command is sent
      again and can still succeed. */
  lemma ReconnectThenSuccess(response: Response, maxAttempts: int)
    ensures CommandRun([Exchanged(Err(ConnectionError)), Reconnected(Done), Exchanged(Ok(response))],
                       maxAttempts) == Finished(Ok(response))
  {
    var events := [Exchanged(Err(ConnectionError)), Reconnected(Done), Exchanged(Ok(response))];
    assert events[..1] == [events[0]] && events[..1][..0] == [];
    assert CommandRun(events[..1], maxAttempts) == Reconnecting(1);
    assert events[..2][..1] == events[..1];
    assert CommandRun(events[..2], maxAttempts) == Running(1, true);
    assert events[..2] == events[..|events| - 1];
  }
}
