/** The reference run of a client (src/pal_rcon/pal_rcon.py,
    src/pal_rcon/async_pal_rcon.py) over a scripted transport: what
    `connect` and `execute_command` do, as functions of the connection
    state, the transport's outcomes and the packet ids the random generator
    will return. The class in module Client is proved to do exactly this,
    and the lemmas at the end prove that each run is one the retry machines
    of module Retry accept. */
module Session {
  import opened Errors
  import opened Wire
  import opened Text
  import opened Utils
  import opened Models
  import opened Codec
  import opened Commands
  import opened Retry

  /** What the transport does at one call: succeed (`Ready`), fail with a
      ConnectionError (`Broken`), or deliver a reply to a read: the four
      length bytes and the payload read after them. */
  datatype Io = Ready | Broken | Reply(prefix: seq<byte>, payload: seq<byte>)

  /** A reply the decoder is modelled for: a read of `length` bytes gives at
      most `length` bytes, the message is ASCII, and '\n' is its only line
      break. */
  predicate WellFormed(io: Io) {
    io.Reply? ==>
      && Decodable(io.prefix, io.payload)
      && |io.payload| <= ReadU32LE(io.prefix)
      && forall i :: 0 <= i < |MessageBytes(io.payload)| ==> !IsOtherLineBreak(MessageBytes(io.payload)[i] as char)
  }

  predicate AllWellFormed(script: seq<Io>) {
    forall i :: 0 <= i < |script| ==> WellFormed(script[i])
  }

  /** The next outcome; a transport with nothing scripted left fails. */
  function Head(script: seq<Io>): Io {
    if script == [] then Broken else script[0]
  }

  function Rest(script: seq<Io>): seq<Io> {
    if script == [] then [] else script[1..]
  }

  /** The state a run depends on and changes: whether a connection is open,
      the transport's remaining outcomes, the ids still to be drawn, and the
      packed packets written so far. */
  datatype Link = Link(connected: bool, script: seq<Io>, ids: seq<int>, written: seq<seq<byte>>)

  predicate Usable(link: Link) {
    AllWellFormed(link.script) && IdsInRange(link.ids)
  }

  /** What a read returns, given the transport's outcome. */
  function Received(io: Io, sent: Packet): (r: Result<Response>)
    requires WellFormed(io)
    ensures r.Err? ==> IsConnectionLevel(r.error) || IsFraming(r.error)
    ensures r.Ok? ==> OnlyNewlineBreaks(r.value.message)
    ensures io.Reply? ==> r == Decode(io.prefix, io.payload, sent)
    ensures !io.Reply? ==> r == Err(ConnectionError)
  {
    match io
    case Reply(prefix, payload) =>
      var r := Decode(prefix, payload, sent);
      if r.Ok? then
        assert forall i :: 0 <= i < |r.value.message| ==>
          r.value.message[i] as int == MessageBytes(payload)[i];
        r
      else r
    case _ => Err(ConnectionError)
  }

  /** `_send_command` then `_receive_response`: ConnectionError without a
      connection (nothing is consumed or written); otherwise one write,
      which records the packed packet when it succeeds, and then one read. */
  function Transfer(link: Link, sent: Packet): (r: (Result<Response>, Link))
    requires Usable(link) && Packable(sent)
    ensures Usable(r.1) && r.1.connected == link.connected && r.1.ids == link.ids
    ensures r.0.Err? ==> IsConnectionLevel(r.0.error) || IsFraming(r.0.error)
    ensures r.0.Ok? ==> OnlyNewlineBreaks(r.0.value.message)
    ensures !link.connected ==> r == (Err(ConnectionError), link)
  {
    if !link.connected then (Err(ConnectionError), link)
    else if Head(link.script).Broken? then (Err(ConnectionError), link.(script := Rest(link.script)))
    else
      (Received(Head(Rest(link.script)), sent),
       link.(script := Rest(Rest(link.script)), written := link.written + [PackMessage(sent)]))
  }

  function StatusOf(r: Result<Response>): (s: Status)
    ensures s.Done? <==> r.Ok?
    ensures s.Failed? ==> s.error == r.error
  {
    if r.Ok? then Done else Failed(r.error)
  }

  /** The login packet `_authenticate` sends. */
  function AuthPacket(id: int, password: string): Packet {
    Packet(id, AuthType, password, None)
  }

  /** The packet `Rcon.execute_command` sends. */
  function CommandPacket(id: int, command: Command): Packet {
    Packet(id, CommandType, Normalize(command), None)
  }

  /** The login packet is a type-3 packet carrying the password under the
      drawn id, and `pack_message` accepts it for every id the generator
      draws and every ASCII password. */
  lemma AuthPacketPackable(id: int, password: string)
    requires MinPacketId <= id <= MaxPacketId && Encodable(password)
    ensures var p := AuthPacket(id, password);
      p.packetType == AuthType && p.packetId == id && p.message == password && Packable(p)
  {
  }

  /** The command packet is a type-2 packet carrying the command as one
      string, without one leading '/' when it has one, and `pack_message`
      accepts it for every drawn id and ASCII command. */
  lemma CommandPacketPackable(id: int, command: Command)
    requires MinPacketId <= id <= MaxPacketId && Encodable(Joined(command))
    ensures var p := CommandPacket(id, command);
      && p.packetType == CommandType && p.packetId == id
      && (p.message == Joined(command) || ['/'] + p.message == Joined(command))
      && Packable(p)
  {
    NormalizeEncodable(command);
  }

  /** `_authenticate`: draw an id, send the password as an auth packet and
      read the reply, which only decides success. */
  function Authenticated(link: Link, password: string): (r: (Status, Link))
    requires Usable(link) && Encodable(password)
    ensures Usable(r.1) && r.1.connected == link.connected && r.1.ids == DropId(link.ids)
    ensures r.0.Failed? ==> IsConnectionLevel(r.0.error) || IsFraming(r.0.error)
    ensures !link.connected ==> r.0 == Failed(ConnectionError)
  {
    var t := Transfer(link.(ids := DropId(link.ids)), AuthPacket(NextId(link.ids), password));
    (StatusOf(t.0), t.1)
  }

  /** `Rcon.connect`: open (on failure nothing else happens and the old
      connection state stays), then authenticate on the new connection. */
  function Login(link: Link, password: string): (r: (Status, Link))
    requires Usable(link) && Encodable(password)
    ensures Usable(r.1)
    ensures r.0.Failed? ==> IsConnectionLevel(r.0.error) || IsFraming(r.0.error)
    ensures Head(link.script).Broken? ==>
      r == (Failed(ConnectionError), link.(script := Rest(link.script)))
    ensures !Head(link.script).Broken? ==> r.1.connected
  {
    if Head(link.script).Broken? then (Failed(ConnectionError), link.(script := Rest(link.script)))
    else Authenticated(link.(connected := true, script := Rest(link.script)), password)
  }

  /** Where a connect run ends: its events, its status and the state after it. */
  datatype ConnectOutcome = ConnectOutcome(events: seq<ConnectEvent>, status: Status, link: Link)

  /** `PalRcon.connect` from attempt `attempt` on, after the events `acc`:
      log in; stop on success, on an error other than a connection or
      login failure, or at the last attempt; otherwise sleep `attempt`
      seconds and try again. */
  function ConnectFrom(link: Link, password: string, maxAttempts: int, attempt: int,
                       acc: seq<ConnectEvent>): (r: ConnectOutcome)
    requires Usable(link) && Encodable(password) && 1 <= attempt <= maxAttempts
    ensures Usable(r.link)
    ensures r.status.Done? ==> r.link.connected
    ensures r.status.Failed? ==> IsConnectionLevel(r.status.error) || IsFraming(r.status.error)
    decreases maxAttempts - attempt
  {
    var t := Login(link, password);
    var s := t.0;
    if s.Done? || !IsConnectionLevel(s.error) || attempt == maxAttempts then
      ConnectOutcome(acc + [Tried(s)], s, t.1)
    else
      ConnectFrom(t.1, password, maxAttempts, attempt + 1, acc + [Tried(s)] + [Backoff(attempt)])
  }

  /** The value `execute_command` returns for an outcome: a reply is
      classified, an error is raised as it is. */
  function Settle(outcome: Result<Response>, command: Command): (r: Result<Response>)
    ensures r.Err? <==> outcome.Err? || command == Tokens([])
    ensures outcome.Err? ==> r == outcome
    ensures r.Ok? ==> outcome.Ok? && r.value == outcome.value.(isSuccessful := r.value.isSuccessful)
    ensures r.Ok? && outcome.value.isSuccessful ==> r.value.isSuccessful
  {
    match outcome
    case Ok(response) => Classify(response, command)
    case Err(e) => Err(e)
  }

  /** Where a command run ends: its events, the value returned or the error
      raised, and the state after it. */
  datatype CommandOutcome = CommandOutcome(events: seq<CommandEvent>, result: Result<Response>, link: Link)

  /** `PalRcon.execute_command` from attempt `attempt` on, with or without
      the reconnect spent, after the events `acc`: send with a fresh id and
      handle the outcome. */
  function CommandFrom(link: Link, password: string, command: Command, maxAttempts: int,
                       attempt: int, reconnected: bool, acc: seq<CommandEvent>): (r: CommandOutcome)
    requires Usable(link) && Encodable(password) && Encodable(Normalize(command))
    requires 1 <= attempt <= maxAttempts
    ensures Usable(r.link)
    ensures r.result.Ok? ==> OnlyNewlineBreaks(r.result.value.message)
    decreases maxAttempts - attempt, if reconnected then 0 else 1, 1
  {
    var t := Transfer(link.(ids := DropId(link.ids)), CommandPacket(NextId(link.ids), command));
    CommandAfter(t.0, t.1, password, command, maxAttempts, attempt, reconnected, acc + [Exchanged(t.0)])
  }

  /** What `execute_command` does with the outcome `res` of a send, the
      events so far being `sent`: classify a reply; on a connection or login
      failure reconnect once (`connect(max_attempts=1)`, whose failure is
      raised) and resend without using an attempt; on a framing error pause
      a second and use up an attempt; raise a second connection failure and
      a framing error at the last attempt. */
  function CommandAfter(res: Result<Response>, link: Link, password: string, command: Command, maxAttempts: int,
                        attempt: int, reconnected: bool, sent: seq<CommandEvent>): (r: CommandOutcome)
    requires Usable(link) && Encodable(password) && Encodable(Normalize(command))
    requires 1 <= attempt <= maxAttempts
    requires res.Err? ==> IsConnectionLevel(res.error) || IsFraming(res.error)
    requires res.Ok? ==> OnlyNewlineBreaks(res.value.message)
    ensures Usable(r.link)
    ensures r.result.Ok? ==> OnlyNewlineBreaks(r.result.value.message)
    decreases maxAttempts - attempt, if reconnected then 0 else 1, 0
  {
    if res.Ok? then
      CommandOutcome(sent, Settle(res, command), link)
    else if IsConnectionLevel(res.error) then
      if reconnected then CommandOutcome(sent, res, link)
      else
        var c := ConnectFrom(link, password, 1, 1, []);
        if c.status.Failed? then CommandOutcome(sent + [Reconnected(c.status)], Err(c.status.error), c.link)
        else CommandFrom(c.link, password, command, maxAttempts, attempt, true, sent + [Reconnected(c.status)])
    else if attempt == maxAttempts then CommandOutcome(sent, res, link)
    else CommandFrom(link, password, command, maxAttempts, attempt + 1, reconnected, sent + [Paused(1)])
  }

  /** The whole of `execute_command` from `before`: the events, the result
      and the state `after` are those of the reference run, which the
      command machine accepts, and the result is its outcome, classified. */
  ghost predicate Executed(before: Link, after: Link, password: string, command: Command, maxAttempts: int,
                           events: seq<CommandEvent>, r: Result<Response>)
  {
    && Usable(before) && Encodable(password) && Encodable(Normalize(command)) && maxAttempts >= 1
    && CommandFrom(before, password, command, maxAttempts, 1, false, []) == CommandOutcome(events, r, after)
    && CommandRun(events, maxAttempts).Finished?
    && r == Settle(CommandRun(events, maxAttempts).result, command)
  }

  // ------------------------------------------------- runs the machines accept

  lemma AppendConnectEvent(events: seq<ConnectEvent>, event: ConnectEvent, maxAttempts: int)
    ensures ConnectRun(events + [event], maxAttempts) == ConnectStep(ConnectRun(events, maxAttempts), event, maxAttempts)
  {
    assert (events + [event])[..|events|] == events;
  }

  lemma AppendConnectDelay(events: seq<ConnectEvent>, event: ConnectEvent)
    ensures ConnectDelays(events + [event]) ==
      ConnectDelays(events) + (if event.Backoff? then [event.seconds] else [])
  {
    assert (events + [event])[..|events|] == events;
  }

  lemma AppendCommandEvent(events: seq<CommandEvent>, event: CommandEvent, maxAttempts: int)
    ensures CommandRun(events + [event], maxAttempts) == CommandStep(CommandRun(events, maxAttempts), event, maxAttempts)
  {
    assert (events + [event])[..|events|] == events;
  }

  lemma AppendCommandDelay(events: seq<CommandEvent>, event: CommandEvent)
    ensures CommandDelays(events + [event]) ==
      CommandDelays(events) + (if event.Paused? then [event.seconds] else [])
  {
    assert (events + [event])[..|events|] == events;
  }

  /** The connect machine ends `Connected` exactly when the run succeeds,
      and otherwise gives up with the error it raises. */
  ghost predicate Connects(o: ConnectOutcome, maxAttempts: int) {
    ConnectRun(o.events, maxAttempts) == (if o.status.Done? then Connected else GaveUp(o.status.error))
  }

  /** What one attempt of the reference connect run leads to, for the run
      `o` from attempt `attempt`: when `done`, `o` ends here with the
      machine in the matching final state; otherwise `o` is the run from
      the next attempt. */
  ghost predicate ConnectLeads(o: ConnectOutcome, password: string, maxAttempts: int, attempt: int,
                               done: bool, link': Link, acc': seq<ConnectEvent>)
    requires Encodable(password) && 1 <= attempt
  {
    && (done ==> Connects(o, maxAttempts))
    && (!done ==>
          && Usable(link') && attempt < maxAttempts
          && ConnectRun(acc', maxAttempts) == Trying(attempt + 1)
          && o == ConnectFrom(link', password, maxAttempts, attempt + 1, acc'))
  }

  /** One attempt of the reference connect run: either it ends here, or it
      is the run from the next attempt. */
  lemma ConnectFromStep(link: Link, password: string, maxAttempts: int, attempt: int, acc: seq<ConnectEvent>)
    returns (done: bool, link': Link, acc': seq<ConnectEvent>)
    requires Usable(link) && Encodable(password) && 1 <= attempt <= maxAttempts
    requires ConnectRun(acc, maxAttempts) == Trying(attempt)
    ensures ConnectLeads(ConnectFrom(link, password, maxAttempts, attempt, acc), password, maxAttempts, attempt,
                         done, link', acc')
  {
    var s := Login(link, password).0;
    if s.Done? || !IsConnectionLevel(s.error) || attempt == maxAttempts {
      done, link', acc' := ConnectEndsStep(link, password, maxAttempts, attempt, acc);
    } else {
      done, link', acc' := ConnectBackoffStep(link, password, maxAttempts, attempt, acc);
    }
  }

  /** A login that succeeds, fails for good, or fails on the last attempt
      ends the run: `Connected` or `GaveUp` with that failure. */
  lemma ConnectEndsStep(link: Link, password: string, maxAttempts: int, attempt: int, acc: seq<ConnectEvent>)
    returns (done: bool, link': Link, acc': seq<ConnectEvent>)
    requires Usable(link) && Encodable(password) && 1 <= attempt <= maxAttempts
    requires ConnectRun(acc, maxAttempts) == Trying(attempt)
    requires var s := Login(link, password).0; s.Done? || !IsConnectionLevel(s.error) || attempt == maxAttempts
    ensures done
    ensures ConnectLeads(ConnectFrom(link, password, maxAttempts, attempt, acc), password, maxAttempts, attempt,
                         done, link', acc')
  {
    var s := Login(link, password).0;
    AppendConnectEvent(acc, Tried(s), maxAttempts);
    done, link', acc' := true, link, acc;
  }

  /** A connection-level failure with attempts left backs off `attempt`
      seconds: the run is the run from the next attempt on the link the
      login left, and the machine is `Trying` that attempt. */
  lemma ConnectBackoffStep(link: Link, password: string, maxAttempts: int, attempt: int, acc: seq<ConnectEvent>)
    returns (done: bool, link': Link, acc': seq<ConnectEvent>)
    requires Usable(link) && Encodable(password) && 1 <= attempt <= maxAttempts
    requires ConnectRun(acc, maxAttempts) == Trying(attempt)
    requires var s := Login(link, password).0; s.Failed? && IsConnectionLevel(s.error) && attempt < maxAttempts
    ensures var t := Login(link, password);
      !done && link' == t.1 && acc' == acc + [Tried(t.0)] + [Backoff(attempt)]
    ensures Usable(link') && ConnectRun(acc', maxAttempts) == Trying(attempt + 1)
    ensures ConnectFrom(link, password, maxAttempts, attempt, acc) == ConnectFrom(link', password, maxAttempts, attempt + 1, acc')
  {
    var t := Login(link, password);
    BackoffRun(acc, t.0, attempt, maxAttempts);
    done, link', acc' := false, t.1, acc + [Tried(t.0)] + [Backoff(attempt)];
  }

  /** A failed attempt and its back-off take the connect machine from
      `Trying(attempt)` to `Trying(attempt + 1)`. */
  lemma BackoffRun(acc: seq<ConnectEvent>, s: Status, attempt: int, maxAttempts: int)
    requires ConnectRun(acc, maxAttempts) == Trying(attempt)
    requires s.Failed? && IsConnectionLevel(s.error) && 1 <= attempt < maxAttempts
    ensures ConnectRun(acc + [Tried(s)] + [Backoff(attempt)], maxAttempts) == Trying(attempt + 1)
  {
    AppendConnectEvent(acc, Tried(s), maxAttempts);
    assert ConnectRun(acc + [Tried(s)], maxAttempts) == Waiting(attempt);
    AppendConnectEvent(acc + [Tried(s)], Backoff(attempt), maxAttempts);
  }

  /** Every reference connect run is accepted by the connect machine: it
      ends `Connected` exactly when it succeeds, and otherwise gives up with
      the error it raises. */
  lemma {:induction false} ConnectFromMachine(link: Link, password: string, maxAttempts: int, attempt: int,
                                             acc: seq<ConnectEvent>)
    requires Usable(link) && Encodable(password) && 1 <= attempt <= maxAttempts
    requires ConnectRun(acc, maxAttempts) == Trying(attempt)
    ensures Connects(ConnectFrom(link, password, maxAttempts, attempt, acc), maxAttempts)
    decreases maxAttempts - attempt
  {
    var done, link', acc' := ConnectFromStep(link, password, maxAttempts, attempt, acc);
    if !done {
      ConnectFromMachine(link', password, maxAttempts, attempt + 1, acc');
    }
  }

  /** The command machine accepts the run's events and its result is the
      machine's outcome, classified. */
  ghost predicate Accepted(o: CommandOutcome, command: Command, maxAttempts: int) {
    && CommandRun(o.events, maxAttempts).Finished?
    && o.result == Settle(CommandRun(o.events, maxAttempts).result, command)
  }

  /** What one pass of the reference command run leads to, for the run `o`
      from `Running(attempt, reconnected)`: when `done`, `o` ends here,
      accepted by the machine; otherwise `o` is the run from the next
      `Running` state, which has one more attempt used or the reconnect
      spent. */
  ghost predicate Leads(o: CommandOutcome, password: string, command: Command, maxAttempts: int,
                        attempt: int, reconnected: bool,
                        done: bool, link': Link, attempt': int, reconnected': bool, acc': seq<CommandEvent>)
    requires Encodable(password) && Encodable(Normalize(command))
  {
    && (done ==> Accepted(o, command, maxAttempts))
    && (!done ==>
          && Usable(link') && 1 <= attempt' <= maxAttempts
          && CommandRun(acc', maxAttempts) == Running(attempt', reconnected')
          && o == CommandFrom(link', password, command, maxAttempts, attempt', reconnected', acc')
          && (attempt < attempt' || (!reconnected && reconnected' && attempt' == attempt)))
  }

  /** One pass of the reference command run: either it ends here, accepted
      by the machine, or it is the run from the next `Running` state. */
  lemma CommandFromStep(link: Link, password: string, command: Command, maxAttempts: int,
                        attempt: int, reconnected: bool, acc: seq<CommandEvent>)
    returns (done: bool, link': Link, attempt': int, reconnected': bool, acc': seq<CommandEvent>)
    requires Usable(link) && Encodable(password) && Encodable(Normalize(command))
    requires 1 <= attempt <= maxAttempts
    requires CommandRun(acc, maxAttempts) == Running(attempt, reconnected)
    ensures Leads(CommandFrom(link, password, command, maxAttempts, attempt, reconnected, acc), password, command,
                  maxAttempts, attempt, reconnected, done, link', attempt', reconnected', acc')
  {
    var t := Transfer(link.(ids := DropId(link.ids)), CommandPacket(NextId(link.ids), command));
    AppendCommandEvent(acc, Exchanged(t.0), maxAttempts);
    ExchangeFirst(link, password, command, maxAttempts, attempt, reconnected, acc);
    done, link', attempt', reconnected', acc' :=
      CommandAfterStep(t.0, t.1, password, command, maxAttempts, attempt, reconnected, acc + [Exchanged(t.0)]);
  }

  /** The rest of a pass after the exchange: one case per way the command
      machine goes on from `Exchanged(res)`. */
  lemma CommandAfterStep(res: Result<Response>, link: Link, password: string, command: Command, maxAttempts: int,
                         attempt: int, reconnected: bool, sent: seq<CommandEvent>)
    returns (done: bool, link': Link, attempt': int, reconnected': bool, acc': seq<CommandEvent>)
    requires Usable(link) && Encodable(password) && Encodable(Normalize(command))
    requires 1 <= attempt <= maxAttempts
    requires res.Err? ==> IsConnectionLevel(res.error) || IsFraming(res.error)
    requires res.Ok? ==> OnlyNewlineBreaks(res.value.message)
    requires CommandRun(sent, maxAttempts) == CommandStep(Running(attempt, reconnected), Exchanged(res), maxAttempts)
    ensures Leads(CommandAfter(res, link, password, command, maxAttempts, attempt, reconnected, sent), password, command,
                  maxAttempts, attempt, reconnected, done, link', attempt', reconnected', acc')
  {
    if res.Err? && IsConnectionLevel(res.error) && !reconnected {
      done, link', attempt', reconnected', acc' := AfterReconnect(res, link, password, command, maxAttempts, attempt, reconnected, sent);
    } else if res.Err? && !IsConnectionLevel(res.error) && attempt < maxAttempts {
      assert CommandRun(sent, maxAttempts) == Retrying(attempt, reconnected);
      done, link', attempt', reconnected', acc' := AfterPauseStep(res, link, password, command, maxAttempts, attempt, reconnected, sent);
    } else {
      done, link', attempt', reconnected', acc' := AfterFinishedStep(res, link, password, command, maxAttempts, attempt, reconnected, sent);
    }
  }

  /** A framing error with attempts left pauses: the run is the run from
      the next attempt on the same link, and the machine is `Running` that
      attempt. */
  lemma AfterPauseStep(res: Result<Response>, link: Link, password: string, command: Command, maxAttempts: int,
                       attempt: int, reconnected: bool, sent: seq<CommandEvent>)
    returns (done: bool, link': Link, attempt': int, reconnected': bool, acc': seq<CommandEvent>)
    requires Usable(link) && Encodable(password) && Encodable(Normalize(command))
    requires 1 <= attempt < maxAttempts
    requires res.Err? && IsFraming(res.error)
    requires CommandRun(sent, maxAttempts) == Retrying(attempt, reconnected)
    ensures !done && link' == link && attempt' == attempt + 1 && reconnected' == reconnected && acc' == sent + [Paused(1)]
    ensures CommandRun(acc', maxAttempts) == Running(attempt', reconnected')
    ensures CommandAfter(res, link, password, command, maxAttempts, attempt, reconnected, sent)
      == CommandFrom(link', password, command, maxAttempts, attempt', reconnected', acc')
  {
    PausedRun(sent, attempt, reconnected, maxAttempts);
    PauseUnfolds(res, link, password, command, maxAttempts, attempt, reconnected, sent);
    done, link', attempt', reconnected', acc' := false, link, attempt + 1, reconnected, sent + [Paused(1)];
  }

  /** The one-second pause takes the command machine from `Retrying` to
      `Running` the next attempt. */
  lemma PausedRun(sent: seq<CommandEvent>, attempt: int, reconnected: bool, maxAttempts: int)
    requires CommandRun(sent, maxAttempts) == Retrying(attempt, reconnected)
    ensures CommandRun(sent + [Paused(1)], maxAttempts) == Running(attempt + 1, reconnected)
  {
    AppendCommandEvent(sent, Paused(1), maxAttempts);
  }

  /** After a framing error with attempts left, the reference run pauses
      and goes on with the next attempt on the same link. */
  lemma PauseUnfolds(res: Result<Response>, link: Link, password: string, command: Command, maxAttempts: int,
                     attempt: int, reconnected: bool, sent: seq<CommandEvent>)
    requires Usable(link) && Encodable(password) && Encodable(Normalize(command))
    requires 1 <= attempt < maxAttempts
    requires res.Err? && IsFraming(res.error)
    ensures CommandAfter(res, link, password, command, maxAttempts, attempt, reconnected, sent)
      == CommandFrom(link, password, command, maxAttempts, attempt + 1, reconnected, sent + [Paused(1)])
  {
  }

  /** An answer, a connection-level error once the reconnect is spent, or
      a framing error on the last attempt ends the run, accepted. */
  lemma AfterFinishedStep(res: Result<Response>, link: Link, password: string, command: Command, maxAttempts: int,
                          attempt: int, reconnected: bool, sent: seq<CommandEvent>)
    returns (done: bool, link': Link, attempt': int, reconnected': bool, acc': seq<CommandEvent>)
    requires Usable(link) && Encodable(password) && Encodable(Normalize(command))
    requires 1 <= attempt <= maxAttempts
    requires res.Err? ==> IsConnectionLevel(res.error) || IsFraming(res.error)
    requires res.Ok? ==> OnlyNewlineBreaks(res.value.message)
    requires res.Err? ==> (IsConnectionLevel(res.error) && reconnected) || (!IsConnectionLevel(res.error) && attempt == maxAttempts)
    requires CommandRun(sent, maxAttempts) == CommandStep(Running(attempt, reconnected), Exchanged(res), maxAttempts)
    ensures done
    ensures Leads(CommandAfter(res, link, password, command, maxAttempts, attempt, reconnected, sent), password, command,
                  maxAttempts, attempt, reconnected, done, link', attempt', reconnected', acc')
  {
    assert CommandRun(sent, maxAttempts) == Finished(res);
    AfterEnds(res, link, password, command, maxAttempts, attempt, reconnected, sent);
    done, link', attempt', reconnected', acc' := true, link, attempt, reconnected, sent;
  }

  /** The reconnect after a first connection-level error: it either ends
      the run, accepted, or leads to the resend with the reconnect spent. */
  lemma AfterReconnect(res: Result<Response>, link: Link, password: string, command: Command, maxAttempts: int,
                       attempt: int, reconnected: bool, sent: seq<CommandEvent>)
    returns (done: bool, link': Link, attempt': int, reconnected': bool, acc': seq<CommandEvent>)
    requires Usable(link) && Encodable(password) && Encodable(Normalize(command))
    requires 1 <= attempt <= maxAttempts
    requires res.Err? && IsConnectionLevel(res.error) && !reconnected
    requires CommandRun(sent, maxAttempts) == Reconnecting(attempt)
    ensures var c := ConnectFrom(link, password, 1, 1, []);
      done == c.status.Failed? && link' == c.link && attempt' == attempt && reconnected'
      && acc' == sent + [Reconnected(c.status)]
    ensures Leads(CommandAfter(res, link, password, command, maxAttempts, attempt, reconnected, sent), password, command,
                  maxAttempts, attempt, reconnected, done, link', attempt', reconnected', acc')
  {
    var c := ConnectFrom(link, password, 1, 1, []);
    AppendCommandEvent(sent, Reconnected(c.status), maxAttempts);
    done, link', attempt', reconnected', acc' := c.status.Failed?, c.link, attempt, true, sent + [Reconnected(c.status)];
  }

  /** One attempt of the reference command run starts with the exchange of
      a command packet under the next id of the supply. */
  lemma ExchangeFirst(link: Link, password: string, command: Command, maxAttempts: int,
                      attempt: int, reconnected: bool, acc: seq<CommandEvent>)
    requires Usable(link) && Encodable(password) && Encodable(Normalize(command))
    requires 1 <= attempt <= maxAttempts
    ensures var t := Transfer(link.(ids := DropId(link.ids)), CommandPacket(NextId(link.ids), command));
      CommandFrom(link, password, command, maxAttempts, attempt, reconnected, acc)
        == CommandAfter(t.0, t.1, password, command, maxAttempts, attempt, reconnected, acc + [Exchanged(t.0)])
  {
  }

  /** The run ends at an answer, at a connection-level error once the
      reconnect is spent, and at a framing error on the last attempt. */
  lemma AfterEnds(res: Result<Response>, link: Link, password: string, command: Command, maxAttempts: int,
                  attempt: int, reconnected: bool, sent: seq<CommandEvent>)
    requires Usable(link) && Encodable(password) && Encodable(Normalize(command))
    requires 1 <= attempt <= maxAttempts
    requires res.Err? ==> IsConnectionLevel(res.error) || IsFraming(res.error)
    requires res.Ok? ==> OnlyNewlineBreaks(res.value.message)
    requires res.Err? ==> (IsConnectionLevel(res.error) && reconnected) || (!IsConnectionLevel(res.error) && attempt == maxAttempts)
    ensures CommandAfter(res, link, password, command, maxAttempts, attempt, reconnected, sent)
      == CommandOutcome(sent, if res.Ok? then Settle(res, command) else res, link)
  {
  }

  /** After an error that still has budget left, the run goes on from the
      state `link'` the recovery left: a connection-level error spends the
      reconnect on one connect attempt, whose failure ends the run and
      whose success resends on the same attempt; a framing error pauses
      and starts the next attempt on the same link. */
  lemma AfterRecovery(res: Result<Response>, link: Link, password: string, command: Command, maxAttempts: int,
                      attempt: int, reconnected: bool, sent: seq<CommandEvent>, s: Status, link': Link)
    requires Usable(link) && Encodable(password) && Encodable(Normalize(command))
    requires 1 <= attempt <= maxAttempts
    requires res.Err? && (IsConnectionLevel(res.error) || IsFraming(res.error))
    requires IsConnectionLevel(res.error) ==>
      && !reconnected
      && s == ConnectFrom(link, password, 1, 1, []).status
      && link' == ConnectFrom(link, password, 1, 1, []).link
    requires !IsConnectionLevel(res.error) ==> attempt < maxAttempts && s == Done && link' == link
    ensures Usable(link')
    ensures var lost := IsConnectionLevel(res.error);
      var events := sent + [if lost then Reconnected(s) else Paused(1)];
      CommandAfter(res, link, password, command, maxAttempts, attempt, reconnected, sent)
        == if s.Failed? then CommandOutcome(events, Err(s.error), link')
           else CommandFrom(link', password, command, maxAttempts, if lost then attempt else attempt + 1,
                            lost || reconnected, events)
  {
  }

  /** Every reference command run is accepted by the command machine, and
      its result is the machine's outcome, classified. */
  lemma {:induction false} CommandFromMachine(link: Link, password: string, command: Command, maxAttempts: int,
                                             attempt: int, reconnected: bool, acc: seq<CommandEvent>)
    requires Usable(link) && Encodable(password) && Encodable(Normalize(command))
    requires 1 <= attempt <= maxAttempts
    requires CommandRun(acc, maxAttempts) == Running(attempt, reconnected)
    ensures Accepted(CommandFrom(link, password, command, maxAttempts, attempt, reconnected, acc), command, maxAttempts)
    decreases maxAttempts - attempt, if reconnected then 0 else 1
  {
    var done, link', attempt', reconnected', acc' :=
      CommandFromStep(link, password, command, maxAttempts, attempt, reconnected, acc);
    if !done {
      CommandFromMachine(link', password, command, maxAttempts, attempt', reconnected', acc');
    }
  }

  /** The reconnect inside `execute_command` never sleeps: its one attempt
      is its whole run. */
  lemma ReconnectIsOneAttempt(link: Link, password: string)
    requires Usable(link) && Encodable(password)
    ensures var o := ConnectFrom(link, password, 1, 1, []);
      o.events == [Tried(o.status)] && ConnectDelays(o.events) == []
  {
    var o := ConnectFrom(link, password, 1, 1, []);
    assert o.events == [] + [Tried(o.status)];
    AppendConnectDelay([], Tried(o.status));
  }
}
