# pal_rcon in Dafny

A model of the core of `pal_rcon`. This is a Python client for the Source
RCON protocol as Palworld dedicated servers speak it. The model covers five
parts:

- **Codec.** `CommandPacket.pack_message` writes a packet: three
  little-endian 32-bit words (length, id, type), the ASCII message and two
  NUL bytes. `_receive_response` reads the reply and decodes it. The id is
  read as signed, and -1 means the login was rejected. The terminator must
  be `00 00`. A non-empty message must end in `'\n'`, which is dropped.
- **Utilities.** Packet-id generation, `safe_message`, `check_max_attempts`
  and the prefix table of `get_initial`.
- **Classification.** Commands are normalised: a token list is joined with
  spaces, and one leading `'/'` is stripped. The first word, with every
  `'/'` removed and lower-cased, picks the expected reply prefix. A reply
  that starts with that prefix is marked successful.
- **Player lists.** `PlayerlistResponse.from_response` splits the reply into
  lines and skips the CSV header. Each other line must have exactly three
  comma-separated fields. Players whose uid is `00000000` are listed
  separately and make the response unsuccessful.
- **Clients.** `PalRcon` (blocking sockets) and `AsyncPalRcon` (asyncio
  streams) are modelled once, as the class `Client.PalRcon` with a
  `flavour`:
  - the retrying `connect` sleeps 1, 2, … seconds between attempts and
    retries only connection and login failures;
  - `execute_command` retries framing errors one second apart, reconnects at
    most once on a connection or login failure, and classifies the reply;
  - the `send_*` helpers are built on `execute_command`.

The transport is a script of outcomes (`Session.Io`): every open, write and
read consumes the next one. Packet ids come from a supply of values in
[1, 2^31 - 1] (`ids`), which stands for the random generator. The seconds
slept and the packets written are recorded in ghost fields.

Each client operation is proved to do exactly what a reference run does
from the same state (module `Session`): the value returned or the error
raised, the connection flag, the outcomes consumed, the ids drawn, the
packets written and the seconds slept. The reference runs are in turn
proved to be runs that the retry state machines of module `Retry` accept.
The properties of the retry policy are lemmas about those machines: attempt
bounds, the backoff sequence, at most one reconnect, at most
`max_attempts + 1` sends, and which error ends a run.

The two clients differ in two ways that matter here:

- The asyncio `disconnect` raises `ConnectionError` when there is no open
  writer. The blocking one never fails. `Client.PalRcon.Disconnect` states
  both.
- `send_shutdown` defaults `seconds` differently. The blocking client clamps
  values below one; the asyncio client clamps only `None`. The number sent
  is the same, because both then take `max(1, …)`
  (`Commands.ShutdownSecondsAgree`).

Modules:

- `Errors`: the exception classes as one `Error` datatype, plus `Option`,
  `Result` and `Status`.
- `Wire`: little-endian words and ASCII.
- `Text`: Python's `str.split`, `join`, `splitlines`, `lower`, `startswith`,
  `replace` and `str(int)`.
- `Utils`: `utils.py`.
- `Models`: the records of `models.py` and `pack_message`.
- `Codec`: the checks of `_receive_response`.
- `Playerlist`: `from_response`.
- `Commands`: normalisation, keywords, classification and the `send_*`
  command strings.
- `Retry`: the two retry state machines.
- `Session`: the transport script and the reference runs of `connect` and
  `execute_command`.
- `Client`: the client class.

The final `raise PalRconError(...)` after each retry loop cannot be reached.
In `connect`, every iteration returns, re-raises, or increments `attempt`
while it is below `max_attempts`. In `execute_command`, every iteration
returns, raises, spends the single reconnect, or increments `attempt` while
it is below `max_attempts`. The model proves that both loops leave only
through a return or a raise of the error at hand, so `PalRconError` never
comes out of them.

Three behaviours of the code that the model keeps:

- After the last failed attempt, `connect` re-raises that attempt's error
  unchanged rather than a generic terminal error.
- The blocking `disconnect` is idempotent and never fails. Only the asyncio
  one rejects a second call.
- A player line with the wrong number of fields makes the whole listing fail
  with `ValueError`. No line is skipped.

In the asyncio `disconnect` (src/pal_rcon/async_pal_rcon.py:45), the inner
test reads `if self._writer or not self._writer.is_closing()`. For a single
caller, the guard before it has already ensured a writer that is not
closing, so the test is always true and has no effect. With concurrent
callers, another `disconnect` could clear `_writer` while this one waits for
the lock, and then `self._writer.is_closing()` would raise `AttributeError`.

## Model

| member | source | states |
|---|---|---|
| Wire.U32LE | src/pal_rcon/models.py:17 | an unsigned 32-bit word is written as exactly four bytes |
| Wire.ReadU32LE | src/pal_rcon/pal_rcon.py:66-67 | `struct.unpack("<I")` of the four length bytes is an unsigned value below 2^32 |
| Wire.ReadI32LE | src/pal_rcon/pal_rcon.py:69 | `struct.unpack("<i")` of the four id bytes is a signed value in [-2^31, 2^31) |
| Wire.ReadU32LEOfU32LE | src/pal_rcon/pal_rcon.py:66-67 | reading `<I` back gives the value written with `<I` |
| Wire.ReadI32LEOfU32LE | src/pal_rcon/pal_rcon.py:69 | reading `<i` gives the value written with `<I` when it is below 2^31, and that value minus 2^32 otherwise |
| Wire.AsciiEncode | src/pal_rcon/models.py:15 | encoding gives one byte per character, equal to its code |
| Wire.AsciiDecode | src/pal_rcon/pal_rcon.py:93 | decoding gives one character per byte, with the byte as its code |
| Wire.AsciiDecodeEncode | src/pal_rcon/models.py:15 | decoding the encoded message gives the message back |
| Text.Split | src/pal_rcon/pal_rcon.py:138 | `str.split(" ")` gives at least one piece, and no piece contains the separator |
| Text.Join | src/pal_rcon/pal_rcon.py:45 | `" ".join(tokens)` starts with the first token, followed by the separator when more tokens follow |
| Text.JoinSplit | src/pal_rcon/pal_rcon.py:45 | joining the pieces of a split with the separator gives the string back |
| Text.SplitJoin | src/pal_rcon/pal_rcon.py:45 | splitting a join of separator-free tokens gives the tokens back |
| Text.SplitLength | src/pal_rcon/models.py:55 | a split has one more piece than the string has separators; this is what makes three-field unpacking fail |
| Text.SplitConcat | src/pal_rcon/pal_rcon.py:138 | the first piece of a split is everything before the first separator, and the rest of the text splits on |
| Text.SplitNoSep | src/pal_rcon/pal_rcon.py:138 | a text without the separator splits into itself alone |
| Text.SplitLines | src/pal_rcon/models.py:52 | no line contains '\n', and there are no lines exactly when the text is empty |
| Text.SplitLinesJoin | src/pal_rcon/models.py:52 | the lines joined with '\n', plus the trailing newline when there was one, rebuild the text |
| Text.Lower | src/pal_rcon/utils.py:19 | lower-casing keeps the length and lower-cases each character |
| Text.LowerIdempotent | src/pal_rcon/utils.py:19 | lower-casing twice is lower-casing once |
| Text.LowerOfLower | src/pal_rcon/pal_rcon.py:138 | text without capitals is its own lower-case form |
| Text.StartsWith | src/pal_rcon/pal_rcon.py:46 | `startswith` holds exactly when the text is the prefix followed by the rest of the text |
| Text.StartsWithEmpty | src/pal_rcon/pal_rcon.py:140 | every message starts with the empty prefix |
| Text.RemoveAll | src/pal_rcon/pal_rcon.py:136-138 | `replace("/", "")` leaves no '/' and removes exactly the counted ones |
| Text.RemoveAllConcat | src/pal_rcon/pal_rcon.py:136-138 | removing from two joined texts is removing from each, joined |
| Text.RemoveAllChar | src/pal_rcon/pal_rcon.py:136-138 | on one character, '/' disappears and any other character stays |
| Text.RemoveAllAbsent | src/pal_rcon/pal_rcon.py:136-138 | a text without '/' is left unchanged |
| Text.NatToDecimal | src/pal_rcon/pal_rcon.py:178 | `str(n)` of a natural number is a non-empty run of decimal digits |
| Text.DecimalRoundTrip | src/pal_rcon/pal_rcon.py:178 | the decimal text of a number reads back as that number |
| Text.IntToDecimal | src/pal_rcon/pal_rcon.py:199 | `str(n)` of an integer holds no space, so it is one argument, and its digits read back as the number, after a '-' when it is negative |
| Utils.NextId | src/pal_rcon/utils.py:4-5 | the id is in [1, 2^31 - 1], and it survives being written unsigned and read signed |
| Utils.DropId | src/pal_rcon/utils.py:4-5 | after a draw, the remaining supply still holds only ids in [1, 2^31 - 1] |
| Utils.DrawUsesOneId | src/pal_rcon/utils.py:4-5 | each `generate_packet_id` call uses up one value: the drawn id followed by the remaining supply is the supply before the draw |
| Utils.SafeMessage | src/pal_rcon/utils.py:8-9 | every space becomes '_' and every other character is kept, at the same position |
| Utils.SafeMessageHasNoSpace | src/pal_rcon/utils.py:8-9 | an escaped message contains no space, so it is one argument |
| Utils.SafeMessageIdempotent | src/pal_rcon/utils.py:8-9 | escaping twice is escaping once |
| Utils.CheckMaxAttempts | src/pal_rcon/utils.py:12-15 | `None` and values below one give 1; any other value is kept |
| Utils.InitialOf | src/pal_rcon/utils.py:20-38 | a keyword has a non-empty prefix exactly when it is one of the eight in the table, and then it is that keyword's prefix |
| Utils.GetInitial | src/pal_rcon/utils.py:18-38 | a command has a non-empty prefix exactly when its lower-cased form is a table keyword, and then it is that keyword's prefix; otherwise "" |
| Utils.GetInitialIgnoresCase | src/pal_rcon/utils.py:19 | `get_initial` of a command equals `get_initial` of its lower-cased form |
| Models.PackMessage | src/pal_rcon/models.py:14-20 | the packet is len+14 bytes; the length word is the byte count after it; then the id and the type, the ASCII message, and `00 00` |
| Codec.MessageBytes | src/pal_rcon/pal_rcon.py:70 | `response[8:-2]` has length len-10, or 0 for a payload of 8 or 9 bytes |
| Codec.Terminator | src/pal_rcon/pal_rcon.py:70 | `response[-2:]` is two bytes |
| Codec.DropLast | src/pal_rcon/pal_rcon.py:93 | `[:-1]` drops the last character, and nothing of an empty text |
| Codec.Decode | src/pal_rcon/pal_rcon.py:63-96 | the errors are authentication or framing; a success has an id other than -1, the raw bytes, the sent packet and an unset flag; its message is the message bytes, one character per byte, without the last one |
| Codec.DecodeAuthSentinel | src/pal_rcon/pal_rcon.py:79-80 | an id of `ff ff ff ff` is rejected as a failed login, whatever follows |
| Codec.DecodeErrors | src/pal_rcon/pal_rcon.py:79-88 | iff per error, in order: id -1 gives AuthenticationFailed; a bad terminator gives InvalidPacket; a non-empty message without a final '\n' gives IncompleteMessage carrying those bytes |
| Codec.DecodeSuccess | src/pal_rcon/pal_rcon.py:90-96 | the id and type come from the header, and the decoded message plus '\n' re-encodes to the message bytes (or is empty for an empty message) |
| Codec.DecodePackMessage | src/pal_rcon/pal_rcon.py:63-96 | a packed packet whose id is below 2^31 and whose message is empty or ends in '\n' decodes to its own id, type and message without the newline |
| Codec.DecodeWrapsLargeIds | src/pal_rcon/pal_rcon.py:69-80 | a packet written with id 2^32-1 is read back as id -1 and rejected as a failed login |
| Playerlist.ParseLine | src/pal_rcon/models.py:55 | a line unpacks into a player exactly when it has two commas |
| Playerlist.FieldsOf | src/pal_rcon/models.py:55 | three comma-free fields joined by commas unpack into those fields |
| Playerlist.KindOf | src/pal_rcon/models.py:53-60 | a line is malformed iff it is not the header and does not unpack; players with uid `00000000` are unresolved, all others resolved |
| Playerlist.Partition | src/pal_rcon/models.py:52-60 | the two lists after each line, in loop order, or failure from the first malformed line on (`PartitionIsReference`) |
| Playerlist.PartitionIsReference | src/pal_rcon/models.py:52-60 | the loop succeeds iff every line is the header or unpacks, and then yields the resolved and unresolved players, in order |
| Playerlist.GatherConcat | src/pal_rcon/models.py:52-60 | the players of two runs of lines are each run's players, in order |
| Playerlist.ResolvedUnresolvedCover | src/pal_rcon/models.py:52-60 | every data line yields exactly one player, in one of the two lists, split by uid |
| Playerlist.HeaderSkippedAnywhere | src/pal_rcon/models.py:53-54 | a header line anywhere contributes no player |
| Playerlist.EmptyLineRejected | src/pal_rcon/models.py:55 | an empty line does not unpack (ValueError) |
| Playerlist.NameWithCommaRejected | src/pal_rcon/models.py:55 | a name containing a comma makes its line fail to unpack |
| Playerlist.TwoPlayerListing | src/pal_rcon/models.py:48-70 | a header, a resolved player and an unresolved one give one player in each list, so the listing is not successful |
| Playerlist.ThreeLines | src/pal_rcon/models.py:52 | three newline-free lines joined by '\n' split back into those lines |
| Playerlist.RowParses | src/pal_rcon/models.py:55 | a player's row unpacks back into that player |
| Playerlist.PartitionPrefix | src/pal_rcon/models.py:52-60 | each iteration of the loop is one step on the lines before it |
| Playerlist.PartitionStaysFailed | src/pal_rcon/models.py:55 | once a line fails to unpack, the whole conversion fails |
| Playerlist.FromResponse | src/pal_rcon/models.py:47-70 | ValueError iff some line fails to unpack; otherwise the packet's fields, the resolved and unresolved players, and success iff none is unresolved |
| Commands.Normalize | src/pal_rcon/pal_rcon.py:45-47 | the command sent is the joined command, less one leading '/' when there is one |
| Commands.NormalizeEncodable | src/pal_rcon/pal_rcon.py:45-48 | normalising an encodable command keeps it encodable |
| Commands.NormalizeStripsOneSlash | src/pal_rcon/pal_rcon.py:46-47 | only one leading slash is stripped |
| Commands.NormalizeTokens | src/pal_rcon/pal_rcon.py:45 | a token list is sent as space-separated tokens that split back into the list |
| Commands.Keyword | src/pal_rcon/pal_rcon.py:135-138 | the keyword has no '/' and is lower-case; there is none exactly for an empty token list |
| Commands.Classify | src/pal_rcon/pal_rcon.py:135-142 | IndexError iff the token list is empty; otherwise the reply is unchanged except that the flag is raised when the message starts with the keyword's prefix |
| Commands.UnknownKeywordAlwaysSucceeds | src/pal_rcon/utils.py:37-38 | a keyword outside the table always classifies as successful |
| Commands.KeywordOfWord | src/pal_rcon/pal_rcon.py:138 | a plain lower-case word is its own keyword, whatever follows it after a space |
| Commands.BroadcastClassification | src/pal_rcon/pal_rcon.py:139-141 | a broadcast reply is successful iff it starts with "Broadcasted:" |
| Commands.ShutdownSeconds | src/pal_rcon/pal_rcon.py:168-178 | the seconds sent are at least 1, and at least 5 when saving first |
| Commands.ShutdownSecondsAgree | src/pal_rcon/async_pal_rcon.py:180-190 | both clients send max(1 or 5, seconds or 1), despite different defaulting |
| Commands.ShutdownCommand | src/pal_rcon/pal_rcon.py:178-180 | the shutdown command splits into the keyword, the seconds and, when non-empty, the escaped message, and is classified as a shutdown |
| Commands.BroadcastCommand | src/pal_rcon/pal_rcon.py:193 | the broadcast command splits into the keyword and the escaped message, and is classified as a broadcast |
| Commands.FormatSteamId | src/pal_rcon/pal_rcon.py:199 | a numeric steam id is written without spaces |
| Commands.KickPlayerCommand | src/pal_rcon/pal_rcon.py:199 | the keyword, then the id's own words, classified as a kick |
| Commands.BanPlayerCommand | src/pal_rcon/pal_rcon.py:205 | the keyword, then the id's own words, classified as a ban |
| Retry.ConnectStep | src/pal_rcon/pal_rcon.py:114-123 | one iteration of `connect`'s loop (`ConnectStepCases`) |
| Retry.ConnectStepCases | src/pal_rcon/pal_rcon.py:114-123 | connected exactly after a good attempt; give up on an error not retried or at the last attempt, with that error; otherwise sleep `attempt` seconds and try attempt+1 |
| Retry.Range | src/pal_rcon/pal_rcon.py:122 | the backoff sequence 1, 2, … element by element |
| Retry.ConnectRunInvariant | src/pal_rcon/pal_rcon.py:110-124 | attempts stay in [1, max]; the delays are exactly 1, 2, …, one per retried failure; giving up on a connection-level error uses all attempts |
| Retry.ConnectRunEndsWithAttempt | src/pal_rcon/pal_rcon.py:116-120 | a finished connect ends with the deciding attempt, and the error raised is that attempt's |
| Retry.SingleAttemptNeverSleeps | src/pal_rcon/pal_rcon.py:148 | a connect with one attempt tries once and never sleeps |
| Retry.ThreeRejectedLogins | src/pal_rcon/pal_rcon.py:110-124 | three rejected logins sleep 1 then 2 and raise AuthenticationFailed |
| Retry.CommandStep | src/pal_rcon/pal_rcon.py:132-158 | one iteration of `execute_command`'s loop (`CommandStepCases`) |
| Retry.CommandStepCases | src/pal_rcon/pal_rcon.py:132-158 | a reply finishes; a first connection-level error calls for the reconnect and a second one is raised; a framing error pauses one second until the last attempt; a good reconnect resends in the same attempt; a failed one is raised |
| Retry.CommandRunInvariant | src/pal_rcon/pal_rcon.py:126-159 | every pause is one second; a finished command sent between 1 and max+1 packets, reconnected at most once and paused at most max-1 times |
| Retry.CommandRunEndsWithOutcome | src/pal_rcon/pal_rcon.py:142-158 | a finished command returns the outcome of its last exchange or reconnect, unchanged |
| Retry.FramingErrorAfterLastAttempt | src/pal_rcon/pal_rcon.py:153-158 | a framing error from a send is raised only after all attempts, with max-1 pauses |
| Retry.SecondConnectionErrorPropagates | src/pal_rcon/pal_rcon.py:143-145 | a connection-level error from a send is raised only after the one reconnect |
| Retry.ReconnectFramingErrorEndsRun | src/pal_rcon/pal_rcon.py:146-152 | a framing error from the reconnect's login is raised at once, without a pause, whatever attempts are left |
| Retry.ReconnectThenSuccess | src/pal_rcon/pal_rcon.py:143-150 | after a connection error and a good reconnect, the command is resent and can succeed |
| Session.Received | src/pal_rcon/pal_rcon.py:63-96 | a read fails with ConnectionError on a broken transport and otherwise decodes the reply; a decoded message has '\n' as its only line break, which holds because every scripted reply is assumed to have no other break (see "## Left out") |
| Session.Transfer | src/pal_rcon/pal_rcon.py:49-96 | without a connection, ConnectionError with nothing consumed or written; the connection flag and the id supply are untouched; errors are connection-level or framing, and a reply has '\n' as its only line break |
| Session.AuthPacketPackable | src/pal_rcon/pal_rcon.py:32 | the login packet has type 3, the drawn id and the password as its message, and `pack_message` accepts it for every drawn id and ASCII password |
| Session.CommandPacketPackable | src/pal_rcon/pal_rcon.py:45-48 | the command packet has type 2, the drawn id, and the command as one string with one leading '/' removed when there is one; `pack_message` accepts it for every drawn id and ASCII command |
| Session.Authenticated | src/pal_rcon/pal_rcon.py:30-35 | the login draws exactly one id and leaves the connection flag alone; it fails only with a connection-level or framing error, and with ConnectionError when not connected |
| Session.Login | src/pal_rcon/pal_rcon.py:26-28 | a failed open is a ConnectionError that changes nothing else; otherwise the client is connected, whatever the login's outcome |
| Session.ConnectFrom | src/pal_rcon/pal_rcon.py:110-124 | the reference run of `connect`: success leaves a connection, and failures are connection-level or framing |
| Session.Settle | src/pal_rcon/pal_rcon.py:134-142 | an error is raised unchanged; a reply is classified, which only ever raises its flag, and an empty token list gives IndexError |
| Session.CommandFrom | src/pal_rcon/pal_rcon.py:126-159 | the reference run of `execute_command`: one send with a fresh id, then `CommandAfter` |
| Session.CommandAfter | src/pal_rcon/pal_rcon.py:142-158 | what the loop does with an outcome: settle a reply, reconnect once, pause on a framing error, or raise |
| Session.ConnectFromMachine | src/pal_rcon/pal_rcon.py:110-124 | every reference connect run is accepted by the connect machine: `Connected` exactly on success, otherwise giving up with the error raised |
| Session.CommandFromMachine | src/pal_rcon/pal_rcon.py:126-159 | every reference command run finishes in the command machine, and its result is the machine's outcome, classified |
| Session.AfterRecovery | src/pal_rcon/pal_rcon.py:143-158 | after an error with budget left, a failed reconnect ends the run with its error, a good one resends in the same attempt, and a framing error pauses and moves to the next attempt |
| Session.AfterEnds | src/pal_rcon/pal_rcon.py:142-155 | a reply, a connection-level error after the reconnect, and a framing error on the last attempt end the run |
| Session.ReconnectIsOneAttempt | src/pal_rcon/pal_rcon.py:148 | the reconnect is one attempt and never sleeps |
| Client.PalRcon.constructor | src/pal_rcon/pal_rcon.py:19-24 | a new client is not connected and has written and slept nothing |
| Client.PalRcon.Next | src/pal_rcon/pal_rcon.py:61-68 | one transport call takes the next scripted outcome |
| Client.PalRcon.DrawId | src/pal_rcon/utils.py:4-5 | one id is drawn from the supply |
| Client.PalRcon.Open | src/pal_rcon/pal_rcon.py:27 | opening fails with ConnectionError and keeps the old connection, or connects |
| Client.PalRcon.SendCommand | src/pal_rcon/pal_rcon.py:52-61 | ConnectionError without a connection; otherwise the packed packet is written unless the write fails |
| Client.PalRcon.ReceiveResponse | src/pal_rcon/pal_rcon.py:63-96 | ConnectionError without a connection; otherwise the next reply, decoded |
| Client.PalRcon.Exchange | src/pal_rcon/pal_rcon.py:43-50 | exactly `Transfer` of the normalised command as a type-2 packet under the next id: the outcome, the packets written and the outcomes consumed |
| Client.PalRcon.Authenticate | src/pal_rcon/pal_rcon.py:30-35 | exactly `Authenticated`: the password packet written, and the reply deciding success |
| Client.PalRcon.ConnectOnce | src/pal_rcon/pal_rcon.py:26-28 | exactly `Login`: open, then log in |
| Client.PalRcon.Connect | src/pal_rcon/pal_rcon.py:110-124 | the outcome, the events and the new state are the reference connect run's, which the machine accepts; the sleeps are its delays |
| Client.PalRcon.ConnectRound | src/pal_rcon/pal_rcon.py:115-123 | one attempt either ends the reference run here or, after a connection or login failure with attempts left, sleeps `attempt` seconds and leaves the run from the next attempt |
| Client.PalRcon.Reconnect | src/pal_rcon/pal_rcon.py:146-152 | the outcome and the new state are those of a one-attempt reference connect; nothing is slept |
| Client.PalRcon.Disconnect | src/pal_rcon/async_pal_rcon.py:41-50 | afterwards not connected, with the client invariant kept; the asyncio client fails with ConnectionError when it was not connected, while the blocking client (src/pal_rcon/pal_rcon.py:37-41) never fails |
| Client.PalRcon.ExecuteCommand | src/pal_rcon/pal_rcon.py:126-159 | the result, the events and the new state are the reference command run's, which finishes in the machine; the result is the machine's outcome, classified; the sleeps are its pauses |
| Client.PalRcon.Round | src/pal_rcon/pal_rcon.py:133-158 | one iteration either ends the reference run with `r`, or leaves the run from the next state, with one more attempt used or the reconnect spent |
| Client.PalRcon.Resume | src/pal_rcon/pal_rcon.py:142-158 | the rest of an iteration once the outcome is in, as `CommandAfter` does it |
| Client.PalRcon.SendShutdown | src/pal_rcon/pal_rcon.py:161-181 | when asked, `save` runs first as a reference run and its error is raised; otherwise the shutdown command with the clamped seconds runs as a reference run from the state the save left |
| Client.PalRcon.SaveFirst | src/pal_rcon/pal_rcon.py:175-176 | a save is sent exactly when asked for, as a one-attempt reference run |
| Client.PalRcon.ExecuteUnlessFailed | src/pal_rcon/pal_rcon.py:175-181 | a failed save is raised with nothing else done; otherwise the command runs as a reference run |
| Client.PalRcon.SendDoExit | src/pal_rcon/pal_rcon.py:183-188 | `doexit` as a reference run; a ConnectionError also clears the connection before it is raised, and other outcomes leave the run's state |
| Client.PalRcon.SendBroadcast | src/pal_rcon/pal_rcon.py:190-194 | the broadcast command with the escaped message, as a reference run |
| Client.PalRcon.SendKickPlayer | src/pal_rcon/pal_rcon.py:196-200 | the `kickplayer` command, as a reference run |
| Client.PalRcon.SendBanPlayer | src/pal_rcon/pal_rcon.py:202-206 | the `banplayer` command, as a reference run |
| Client.PalRcon.SendShowPlayers | src/pal_rcon/pal_rcon.py:208-212 | `showplayers` with ten attempts unless given, as a reference run; its error passes through; a reply becomes the player list of its lines, or ValueError |
| Client.PalRcon.SendInfo | src/pal_rcon/pal_rcon.py:214-215 | the `info` command, as a reference run |
| Client.PalRcon.SendSave | src/pal_rcon/pal_rcon.py:217-218 | the `save` command, as a reference run |

## Left out

- Sockets, asyncio streams and `asyncio.Lock` are replaced by a script of outcomes. Concurrent use of one asyncio client is not modelled.
- `time.sleep` and `asyncio.sleep` are ghost records of the seconds. No time passes.
- `random.randint` is replaced by a given supply of ids in [1, 2^31 - 1]. An exhausted supply gives the id 1.
- Logging is left out. It includes the log line on an id mismatch, which has no other effect, and the password redaction in that log.
- `cli.py` (argument parsing, printing, the interactive loop) is not part of this model.
- `__enter__`/`__exit__` and `__aenter__`/`__aexit__` are left out. They are `Connect(Some(3))` and `Disconnect`.
- Messages are ASCII only. Non-ASCII text would fail `encode("ascii")`, and the UTF-8 `decode` of non-ASCII replies is not modelled.
- Session.Received: replies are assumed to have a four-byte length prefix, at least 8 payload bytes and ASCII message bytes. Shorter payloads raise `struct.error`, which is not modelled. `message.decode()` (src/pal_rcon/pal_rcon.py:93, src/pal_rcon/async_pal_rcon.py:104) decodes as UTF-8: a reply whose message bytes are valid non-ASCII UTF-8, such as a `showplayers` reply with a Japanese player name, is decoded and returned by the code, but the model cannot represent it. Only invalid UTF-8 raises `UnicodeDecodeError`, and that is not modelled either.
- Session.Received: a server that closes the connection cleanly is not modelled. The blocking `recv(4)` then returns no bytes and `struct.unpack` raises `struct.error` (src/pal_rcon/pal_rcon.py:66-67); asyncio's `readexactly` raises `IncompleteReadError` (src/pal_rcon/async_pal_rcon.py:77). Neither is caught, so no reconnect follows. The model's only failing transport outcome is `Broken`, a ConnectionError, which does reconnect.
- Client.PalRcon.Disconnect: in the asyncio client a failed write or read leaves `_writer.is_closing()` true, so a later `disconnect` raises ConnectionError (src/pal_rcon/async_pal_rcon.py:42-43). The model keeps the connection flag after a `Broken` outcome, so its asyncio `Disconnect` succeeds there.
- Client.PalRcon.Disconnect: closing never fails. The old socket left open when `connect` replaces `_sock` is not tracked.
- Session.Received: every scripted reply is assumed to have '\n' as its only line break. This covers the reply to the login and to every command (`info`, `save`, `broadcast` and the rest), not only to `showplayers`. The code decodes a reply holding '\r' (a CRLF `info` reply, for example) unchanged, but the model cannot represent such a reply. The ensures of `Received`, `Transfer` and `CommandFrom` that a message has no other break rest on this assumption.
- Playerlist.FromResponse: requires '\n' to be the only line break in the message. `str.splitlines` also splits at '\r', '\v', '\f', '\x1c'-'\x1e' and some non-ASCII breaks, which the model does not cover.
- Text.Lower: lower-cases ASCII letters only. Python's `str.lower` covers all of Unicode.
- Client.PalRcon.Open: every failure to open is a ConnectionError. Other `OSError`s, such as a DNS failure, are not distinguished.
- Client.PalRcon.SendDoExit: the asyncio `disconnect` inside the handler may itself raise ConnectionError. The error raised is a ConnectionError either way, and the model does not tell the two apart.
