/** The protocol engine of `PalRcon` (src/pal_rcon/pal_rcon.py) and
    `AsyncPalRcon` (src/pal_rcon/async_pal_rcon.py), written once: the two
    differ only in how `disconnect` treats a missing connection and how
    `send_shutdown` defaults its seconds, which `flavour` selects. The
    socket or stream pair is a connection flag over a scripted transport:
    every open, write and read takes the next outcome of `script`, and
    packet ids are drawn from `ids`. Sleeps are recorded in `delays`, bytes
    written in `written`. Every operation is proved to do exactly what the
    reference run of module Session does from the same state. */
module Client {
  import opened Errors
  import opened Text
  import opened Utils
  import opened Models
  import opened Commands
  import opened Retry
  import opened Session
  import Playerlist

  class PalRcon {
    const flavour: Flavour
    const password: string
    /** `_sock is not None` (blocking); `_writer` present and not closing (asyncio). */
    var connected: bool
    var script: seq<Io>
    var ids: seq<int>
    ghost var written: seq<seq<byte>>
    ghost var delays: seq<int>

    /** The state the reference runs work on. */
    ghost function LinkOf(): Link
      reads this`connected, this`script, this`ids, this`written
    {
      Link(connected, script, ids, written)
    }

    ghost predicate Valid()
      reads this`connected, this`script, this`ids, this`written
    {
      Encodable(password) && Usable(LinkOf())
    }

    /** `__init__`: not connected. */
    constructor (flavour: Flavour, password: string, script: seq<Io>, ids: seq<int>)
      requires Encodable(password) && AllWellFormed(script) && IdsInRange(ids)
      ensures Valid()
      ensures this.flavour == flavour && this.password == password
      ensures LinkOf() == Link(false, script, ids, []) && delays == []
    {
      this.flavour := flavour;
      this.password := password;
      this.script := script;
      this.ids := ids;
      connected := false;
      written := [];
      delays := [];
    }

    /** Takes the transport's next outcome. */
    method Next() returns (io: Io)
      requires Valid()
      modifies this`script
      ensures Valid() && WellFormed(io)
      ensures io == Head(old(script)) && script == Rest(old(script))
    {
      io := Head(script);
      script := Rest(script);
    }

    /** `generate_packet_id`. */
    method DrawId() returns (id: int)
      requires Valid()
      modifies this`ids
      ensures Valid()
      ensures id == NextId(old(ids)) && ids == DropId(old(ids))
    {
      id := NextId(ids);
      ids := DropId(ids);
    }

    /** `socket.create_connection` / `asyncio.open_connection`: on failure
        the connection field keeps its old value. */
    method Open() returns (s: Status)
      requires Valid()
      modifies this`script, this`connected
      ensures Valid() && script == Rest(old(script))
      ensures s == if Head(old(script)).Broken? then Failed(ConnectionError) else Done
      ensures connected == (old(connected) || s.Done?)
    {
      var io := Next();
      if io.Broken? {
        return Failed(ConnectionError);
      }
      connected := true;
      s := Done;
    }

    /** `_send_command`: refuses without a connection, otherwise writes the
        packed packet. */
    method SendCommand(packet: Packet) returns (s: Status)
      requires Valid() && Packable(packet)
      modifies this`script, this`written
      ensures Valid()
      ensures !connected ==> s == Failed(ConnectionError) && script == old(script) && written == old(written)
      ensures connected ==>
        && script == Rest(old(script))
        && s == (if Head(old(script)).Broken? then Failed(ConnectionError) else Done)
        && written == old(written) + (if s.Done? then [PackMessage(packet)] else [])
    {
      if !connected {
        return Failed(ConnectionError);
      }
      var io := Next();
      if io.Broken? {
        return Failed(ConnectionError);
      }
      written := written + [PackMessage(packet)];
      s := Done;
    }

    /** `_receive_response`: refuses without a connection, otherwise reads a
        reply and decodes it. */
    method ReceiveResponse(sent: Packet) returns (r: Result<Response>)
      requires Valid()
      modifies this`script
      ensures Valid()
      ensures !connected ==> r == Err(ConnectionError) && script == old(script)
      ensures connected ==> script == Rest(old(script)) && r == Received(Head(old(script)), sent)
    {
      if !connected {
        return Err(ConnectionError);
      }
      var io := Next();
      r := Received(io, sent);
    }

    /** `Rcon.execute_command`: draw an id, normalise, send, receive. */
    method Exchange(command: Command) returns (r: Result<Response>)
      requires Valid() && Encodable(Normalize(command))
      modifies this`script, this`written, this`ids
      ensures Valid()
      ensures (r, LinkOf()) ==
        Transfer(old(LinkOf()).(ids := DropId(old(ids))), CommandPacket(NextId(old(ids)), command))
    {
      ghost var before := LinkOf().(ids := DropId(ids));
      var id := DrawId();
      var packet := CommandPacket(id, command);
      var s := SendCommand(packet);
      if s.Failed? {
        assert LinkOf() == before.(script := script);
        return Err(s.error);
      }
      r := ReceiveResponse(packet);
    }

    /** `_authenticate`: send the password as an auth packet, decode the reply. */
    method Authenticate() returns (s: Status)
      requires Valid()
      modifies this`script, this`written, this`ids
      ensures Valid()
      ensures (s, LinkOf()) == Authenticated(old(LinkOf()), password)
    {
      ghost var before := LinkOf().(ids := DropId(ids));
      var id := DrawId();
      var packet := AuthPacket(id, password);
      s := SendCommand(packet);
      if s.Failed? {
        assert LinkOf() == before.(script := script);
        return;
      }
      var r := ReceiveResponse(packet);
      s := StatusOf(r);
    }

    /** `Rcon.connect`: open, then log in. */
    method ConnectOnce() returns (s: Status)
      requires Valid()
      modifies this`script, this`written, this`ids, this`connected
      ensures Valid()
      ensures (s, LinkOf()) == Login(old(LinkOf()), password)
    {
      s := Open();
      if s.Failed? {
        return;
      }
      s := Authenticate();
    }

    /** `PalRcon.connect`: up to `max(1, maxAttempts)` attempts, sleeping
        1, 2, ... seconds between them; connection and login failures are
        retried, anything else is raised at once. The run is the reference
        run, which the connect machine accepts. */
    method Connect(maxAttempts: Option<int>) returns (s: Status, ghost events: seq<ConnectEvent>)
      requires Valid()
      modifies this`script, this`written, this`ids, this`connected, this`delays
      ensures Valid()
      ensures ConnectFrom(old(LinkOf()), password, CheckMaxAttempts(maxAttempts), 1, []) ==
        ConnectOutcome(events, s, LinkOf())
      ensures ConnectRun(events, CheckMaxAttempts(maxAttempts)) ==
        (if s.Done? then Connected else GaveUp(s.error))
      ensures delays == old(delays) + ConnectDelays(events)
    {
      var max := CheckMaxAttempts(maxAttempts);
      ghost var start := LinkOf();
      var attempt := 1;
      events := [];
      while true
        invariant Valid() && 1 <= attempt <= max
        invariant ConnectFrom(start, password, max, 1, []) == ConnectFrom(LinkOf(), password, max, attempt, events)
        invariant delays == old(delays) + ConnectDelays(events)
        decreases max - attempt
      {
        var done;
        s, done, events := ConnectRound(max, attempt, events, old(delays));
        if done {
          ConnectFromMachine(start, password, max, 1, []);
          return;
        }
        attempt := attempt + 1;
      }
    }

    /** One pass of `connect`'s loop at attempt `attempt`: connect and log
        in; on a connection or login failure with attempts left, sleep
        `attempt` seconds. */
    method ConnectRound(max: int, attempt: int, ghost events: seq<ConnectEvent>, ghost base: seq<int>)
      returns (s: Status, done: bool, ghost events': seq<ConnectEvent>)
      requires Valid() && 1 <= attempt <= max
      requires delays == base + ConnectDelays(events)
      modifies this`script, this`written, this`ids, this`connected, this`delays
      ensures Valid()
      ensures events' == events + [Tried(s)] + (if done then [] else [Backoff(attempt)])
      ensures delays == base + ConnectDelays(events')
      ensures done ==> ConnectFrom(old(LinkOf()), password, max, attempt, events) == ConnectOutcome(events', s, LinkOf())
      ensures !done ==>
        && attempt < max
        && ConnectFrom(old(LinkOf()), password, max, attempt, events) == ConnectFrom(LinkOf(), password, max, attempt + 1, events')
    {
      s := ConnectOnce();
      AppendConnectDelay(events, Tried(s));
      events' := events + [Tried(s)];
      if s.Done? || !IsConnectionLevel(s.error) || attempt == max {
        return s, true, events';
      }
      AppendConnectDelay(events', Backoff(attempt));
      events' := events' + [Backoff(attempt)];
      delays := delays + [attempt];
      done := false;
    }

    /** The reconnect inside `execute_command`: `connect` with a single
        attempt, which never sleeps. */
    method Reconnect() returns (s: Status)
      requires Valid()
      modifies this`script, this`written, this`ids, this`connected, this`delays
      ensures Valid()
      ensures var o := ConnectFrom(old(LinkOf()), password, 1, 1, []);
        s == o.status && LinkOf() == o.link
      ensures delays == old(delays)
    {
      ghost var start := LinkOf();
      ghost var events;
      s, events := Connect(Some(1));
      ReconnectIsOneAttempt(start, password);
    }

    /** `disconnect`. The blocking client closes whatever is there and never
        fails; the asyncio client fails when there is no open writer. Either
        way there is no connection afterwards. */
    method Disconnect() returns (s: Status)
      requires Valid()
      modifies this`connected
      ensures Valid() && !connected
      ensures s == if flavour == Cooperative && !old(connected) then Failed(ConnectionError) else Done
    {
      if flavour == Cooperative && !connected {
        return Failed(ConnectionError);
      }
      connected := false;
      s := Done;
    }

    /** `PalRcon.execute_command`: framing errors are retried a second apart
        until `max(1, maxAttempts)` attempts are used; a connection or login
        error triggers one reconnect, which uses no attempt; the reply is
        classified by the command's keyword. The run is the reference run,
        which the command machine accepts. */
    method ExecuteCommand(command: Command, maxAttempts: Option<int>)
      returns (r: Result<Response>, ghost events: seq<CommandEvent>)
      requires Valid() && Encodable(Normalize(command))
      modifies this`script, this`written, this`ids, this`connected, this`delays
      ensures Valid()
      ensures Executed(old(LinkOf()), LinkOf(), password, command, CheckMaxAttempts(maxAttempts), events, r)
      ensures delays == old(delays) + CommandDelays(events)
    {
      var max := CheckMaxAttempts(maxAttempts);
      ghost var start := LinkOf();
      var attempt := 1;
      var reconnectAttempted := false;
      events := [];
      while true
        invariant Valid() && 1 <= attempt <= max
        invariant CommandFrom(start, password, command, max, 1, false, []) ==
          CommandFrom(LinkOf(), password, command, max, attempt, reconnectAttempted, events)
        invariant delays == old(delays) + CommandDelays(events)
        decreases max - attempt, if reconnectAttempted then 0 else 1
      {
        var done, nextAttempt, nextReconnected;
        r, done, nextAttempt, nextReconnected, events :=
          Round(command, max, attempt, reconnectAttempted, events, old(delays));
        if done {
          CommandFromMachine(start, password, command, max, 1, false, []);
          return;
        }
        attempt, reconnectAttempted := nextAttempt, nextReconnected;
      }
    }

    /** One pass of `execute_command`'s loop: send and receive, then
        settle, give up, reconnect or pause as the outcome calls for. The
        run either finishes with `r` or continues with one more attempt
        used or the reconnect spent. */
    method Round(command: Command, max: int, attempt: int, reconnected: bool,
                 ghost events: seq<CommandEvent>, ghost base: seq<int>)
      returns (r: Result<Response>, done: bool, nextAttempt: int, nextReconnected: bool,
               ghost events': seq<CommandEvent>)
      requires Valid() && Encodable(Normalize(command))
      requires 1 <= attempt <= max
      requires delays == base + CommandDelays(events)
      modifies this`script, this`written, this`ids, this`connected, this`delays
      ensures Valid()
      ensures delays == base + CommandDelays(events')
      ensures done ==>
        CommandFrom(old(LinkOf()), password, command, max, attempt, reconnected, events)
          == CommandOutcome(events', r, LinkOf())
      ensures !done ==> 1 <= nextAttempt <= max
      ensures !done ==>
        CommandFrom(old(LinkOf()), password, command, max, attempt, reconnected, events)
          == CommandFrom(LinkOf(), password, command, max, nextAttempt, nextReconnected, events')
      ensures !done ==> (attempt < nextAttempt || (!reconnected && nextReconnected && attempt == nextAttempt))
    {
      ghost var start := LinkOf();
      var res := Exchange(command);
      AppendCommandDelay(events, Exchanged(res));
      ExchangeFirst(start, password, command, max, attempt, reconnected, events);
      r, done, nextAttempt, nextReconnected, events' :=
        Resume(res, command, max, attempt, reconnected, events + [Exchanged(res)], base);
    }

    /** The rest of a pass once the reply `res` is in: an answer is
        settled, an error past its budget is raised, a connection-level
        error reconnects and a framing error pauses. */
    method Resume(res: Result<Response>, command: Command, max: int, attempt: int, reconnected: bool,
                  ghost sent: seq<CommandEvent>, ghost base: seq<int>)
      returns (r: Result<Response>, done: bool, nextAttempt: int, nextReconnected: bool,
               ghost events': seq<CommandEvent>)
      requires Valid() && Encodable(Normalize(command))
      requires 1 <= attempt <= max
      requires res.Err? ==> IsConnectionLevel(res.error) || IsFraming(res.error)
      requires res.Ok? ==> OnlyNewlineBreaks(res.value.message)
      requires delays == base + CommandDelays(sent)
      modifies this`script, this`written, this`ids, this`connected, this`delays
      ensures Valid()
      ensures delays == base + CommandDelays(events')
      ensures done ==>
        CommandAfter(res, old(LinkOf()), password, command, max, attempt, reconnected, sent)
          == CommandOutcome(events', r, LinkOf())
      ensures !done ==> 1 <= nextAttempt <= max
      ensures !done ==>
        CommandAfter(res, old(LinkOf()), password, command, max, attempt, reconnected, sent)
          == CommandFrom(LinkOf(), password, command, max, nextAttempt, nextReconnected, events')
      ensures !done ==> (attempt < nextAttempt || (!reconnected && nextReconnected && attempt == nextAttempt))
    {
      if res.Ok? || (IsConnectionLevel(res.error) && reconnected) || (!IsConnectionLevel(res.error) && attempt == max) {
        AfterEnds(res, LinkOf(), password, command, max, attempt, reconnected, sent);
        r := if res.Ok? then Settle(res, command) else res;
        return r, true, attempt, reconnected, sent;
      }
      // a connection-level error reconnects once, a framing error sleeps
      // one second; either way the error is not raised yet
      ghost var link := LinkOf();
      var lost := IsConnectionLevel(res.error);
      var s := Done;
      if lost {
        s := Reconnect();
      } else {
        delays := delays + [1];
      }
      AfterRecovery(res, link, password, command, max, attempt, reconnected, sent, s, LinkOf());
      AppendCommandDelay(sent, if lost then Reconnected(s) else Paused(1));
      events' := sent + [if lost then Reconnected(s) else Paused(1)];
      r, done := if s.Failed? then Err(s.error) else res, s.Failed?;
      nextAttempt, nextReconnected := if lost then attempt else attempt + 1, lost || reconnected;
    }

    /** `send_shutdown`: optionally save first (its failure is raised), then
        `shutdown N [message]`. `saved` is the outcome of the save, when one
        was sent, and `mid` the state between the two commands. */
    method SendShutdown(seconds: Option<int>, message: Option<string>, sendSave: Option<bool>,
                        maxAttempts: Option<int>)
      returns (r: Result<Response>, ghost saved: Option<Result<Response>>, ghost saveEvents: seq<CommandEvent>,
               ghost mid: Link, ghost events: seq<CommandEvent>)
      requires Valid()
      requires Encodable(ShutdownCommand(ShutdownSeconds(flavour, seconds, sendSave), message))
      modifies this`script, this`written, this`ids, this`connected, this`delays
      ensures Valid()
      ensures saved.Some? <==> sendSave == Some(true)
      ensures saved.None? ==> mid == old(LinkOf()) && saveEvents == []
      ensures saved.Some? ==> Executed(old(LinkOf()), mid, password, Line("save"), 1, saveEvents, saved.value)
      ensures saved.Some? && saved.value.Err? ==> r == Err(saved.value.error) && LinkOf() == mid && events == []
      ensures saved.None? || saved.value.Ok? ==>
        Executed(mid, LinkOf(), password, Line(ShutdownCommand(ShutdownSeconds(flavour, seconds, sendSave), message)),
                 CheckMaxAttempts(maxAttempts), events, r)
      ensures delays == old(delays) + CommandDelays(saveEvents) + CommandDelays(events)
    {
      var first;
      first, saveEvents, mid := SaveFirst(sendSave);
      saved := first;
      var command := Line(ShutdownCommand(ShutdownSeconds(flavour, seconds, sendSave), message));
      NormalizeEncodable(command);
      ghost var middle := delays;
      r, events := ExecuteUnlessFailed(first, command, maxAttempts);
      assert delays == middle + CommandDelays(events);
    }

    /** `execute_command(command)`, unless the command sent before it
        failed with an error, which is raised instead. */
    method ExecuteUnlessFailed(first: Option<Result<Response>>, command: Command, maxAttempts: Option<int>)
      returns (r: Result<Response>, ghost events: seq<CommandEvent>)
      requires Valid() && Encodable(Normalize(command))
      modifies this`script, this`written, this`ids, this`connected, this`delays
      ensures Valid()
      ensures first.Some? && first.value.Err? ==>
        r == Err(first.value.error) && LinkOf() == old(LinkOf()) && events == [] && delays == old(delays)
      ensures first.None? || first.value.Ok? ==>
        Executed(old(LinkOf()), LinkOf(), password, command, CheckMaxAttempts(maxAttempts), events, r)
      ensures delays == old(delays) + CommandDelays(events)
    {
      if first.Some? && first.value.Err? {
        return Err(first.value.error), [];
      }
      r, events := ExecuteCommand(command, maxAttempts);
    }

    /** The save `send_shutdown` sends first when asked to. */
    method SaveFirst(sendSave: Option<bool>)
      returns (saved: Option<Result<Response>>, ghost saveEvents: seq<CommandEvent>, ghost mid: Link)
      requires Valid()
      modifies this`script, this`written, this`ids, this`connected, this`delays
      ensures Valid() && mid == LinkOf()
      ensures saved.Some? <==> sendSave == Some(true)
      ensures saved.None? ==> mid == old(LinkOf()) && saveEvents == []
      ensures saved.Some? ==> Executed(old(LinkOf()), mid, password, Line("save"), 1, saveEvents, saved.value)
      ensures delays == old(delays) + CommandDelays(saveEvents)
    {
      saved, saveEvents := None, [];
      if sendSave == Some(true) {
        var res;
        res, saveEvents := SendSave(None);
        saved := Some(res);
      }
      mid := LinkOf();
    }

    /** `send_do_exit`: a ConnectionError disconnects before it is raised;
        other errors pass through with the connection left as it is. `ran`
        is the state the command's run ends in. */
    method SendDoExit(maxAttempts: Option<int>)
      returns (r: Result<Response>, ghost events: seq<CommandEvent>, ghost ran: Link)
      requires Valid()
      modifies this`script, this`written, this`ids, this`connected, this`delays
      ensures Valid()
      ensures Executed(old(LinkOf()), ran, password, Line("doexit"), CheckMaxAttempts(maxAttempts), events, r)
      ensures LinkOf() == if r == Err(ConnectionError) then ran.(connected := false) else ran
      ensures delays == old(delays) + CommandDelays(events)
    {
      NormalizeEncodable(Line("doexit"));
      r, events := ExecuteCommand(Line("doexit"), maxAttempts);
      ran := LinkOf();
      if r == Err(ConnectionError) {
        // the asyncio client's own disconnect may raise ConnectionError
        // instead; the error raised is a ConnectionError either way
        var _ := Disconnect();
      }
    }

    /** `send_broadcast`. */
    method SendBroadcast(message: string, maxAttempts: Option<int>)
      returns (r: Result<Response>, ghost events: seq<CommandEvent>)
      requires Valid() && Encodable(BroadcastCommand(message))
      modifies this`script, this`written, this`ids, this`connected, this`delays
      ensures Valid()
      ensures Executed(old(LinkOf()), LinkOf(), password, Line(BroadcastCommand(message)),
                       CheckMaxAttempts(maxAttempts), events, r)
      ensures delays == old(delays) + CommandDelays(events)
    {
      NormalizeEncodable(Line(BroadcastCommand(message)));
      r, events := ExecuteCommand(Line(BroadcastCommand(message)), maxAttempts);
    }

    /** `send_kick_player`. */
    method SendKickPlayer(steamId: SteamId, maxAttempts: Option<int>)
      returns (r: Result<Response>, ghost events: seq<CommandEvent>)
      requires Valid() && Encodable(KickPlayerCommand(steamId))
      modifies this`script, this`written, this`ids, this`connected, this`delays
      ensures Valid()
      ensures Executed(old(LinkOf()), LinkOf(), password, Line(KickPlayerCommand(steamId)),
                       CheckMaxAttempts(maxAttempts), events, r)
      ensures delays == old(delays) + CommandDelays(events)
    {
      NormalizeEncodable(Line(KickPlayerCommand(steamId)));
      r, events := ExecuteCommand(Line(KickPlayerCommand(steamId)), maxAttempts);
    }

    /** `send_ban_player`. */
    method SendBanPlayer(steamId: SteamId, maxAttempts: Option<int>)
      returns (r: Result<Response>, ghost events: seq<CommandEvent>)
      requires Valid() && Encodable(BanPlayerCommand(steamId))
      modifies this`script, this`written, this`ids, this`connected, this`delays
      ensures Valid()
      ensures Executed(old(LinkOf()), LinkOf(), password, Line(BanPlayerCommand(steamId)),
                       CheckMaxAttempts(maxAttempts), events, r)
      ensures delays == old(delays) + CommandDelays(events)
    {
      NormalizeEncodable(Line(BanPlayerCommand(steamId)));
      r, events := ExecuteCommand(Line(BanPlayerCommand(steamId)), maxAttempts);
    }

    /** `send_show_players`: ten attempts when given None, then the
        player-list parser on the reply; `reply` is what `execute_command`
        returned or raised. */
    method SendShowPlayers(maxAttempts: Option<int>)
      returns (r: Result<PlayerList>, ghost reply: Result<Response>, ghost events: seq<CommandEvent>)
      requires Valid()
      modifies this`script, this`written, this`ids, this`connected, this`delays
      ensures Valid()
      ensures Executed(old(LinkOf()), LinkOf(), password, Line("showplayers"),
                       if maxAttempts.None? then 10 else CheckMaxAttempts(maxAttempts), events, reply)
      ensures delays == old(delays) + CommandDelays(events)
      ensures reply.Err? ==> r == Err(reply.error)
      ensures reply.Ok? ==>
        var lines := SplitLines(reply.value.message);
        && (r.Ok? <==> Playerlist.AllParse(lines))
        && (r.Err? ==> r.error == ValueError)
        && (r.Ok? ==> r.value == PlayerList(
              reply.value.packetId, reply.value.packetType, reply.value.message, reply.value.rawMessage,
              reply.value.sendCommand, Playerlist.Unresolved(lines) == [],
              Playerlist.Resolved(lines), Playerlist.Unresolved(lines)))
    {
      var attempts := if maxAttempts.None? then Some(10) else maxAttempts;
      NormalizeEncodable(Line("showplayers"));
      var res;
      res, events := ExecuteCommand(Line("showplayers"), attempts);
      reply := res;
      if res.Err? {
        return Err(res.error), reply, events;
      }
      r := Playerlist.FromResponse(res.value);
    }

    /** `send_info`. */
    method SendInfo(maxAttempts: Option<int>) returns (r: Result<Response>, ghost events: seq<CommandEvent>)
      requires Valid()
      modifies this`script, this`written, this`ids, this`connected, this`delays
      ensures Valid()
      ensures Executed(old(LinkOf()), LinkOf(), password, Line("info"), CheckMaxAttempts(maxAttempts), events, r)
      ensures delays == old(delays) + CommandDelays(events)
    {
      NormalizeEncodable(Line("info"));
      r, events := ExecuteCommand(Line("info"), maxAttempts);
    }

    /** `send_save`. */
    method SendSave(maxAttempts: Option<int>) returns (r: Result<Response>, ghost events: seq<CommandEvent>)
      requires Valid()
      modifies this`script, this`written, this`ids, this`connected, this`delays
      ensures Valid()
      ensures Executed(old(LinkOf()), LinkOf(), password, Line("save"), CheckMaxAttempts(maxAttempts), events, r)
      ensures delays == old(delays) + CommandDelays(events)
    {
      NormalizeEncodable(Line("save"));
      r, events := ExecuteCommand(Line("save"), maxAttempts);
    }
  }
}
