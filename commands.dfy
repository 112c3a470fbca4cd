/** Command normalisation, keyword extraction and classification of
    `execute_command`, and the command strings of the `send_*` helpers
    (src/pal_rcon/pal_rcon.py, src/pal_rcon/async_pal_rcon.py). */
module Commands {
  import opened Errors
  import opened Text
  import opened Utils
  import opened Models

  /** The two client implementations: blocking sockets (pal_rcon.py) and
      asyncio streams (async_pal_rcon.py). */
  datatype Flavour = Blocking | Cooperative

  /** A command is given either as one string or as a list of tokens. */
  datatype Command = Line(text: string) | Tokens(tokens: seq<string>)

  /** A steam id is given either as text or as an integer. */
  datatype SteamId = IdText(text: string) | IdNumber(number: int)

  /** The command as one string: a token list is joined with single spaces. */
  function Joined(command: Command): string {
    match command
    case Line(text) => text
    case Tokens(tokens) => Join(tokens, ' ')
  }

  /** `Rcon.execute_command`'s normalisation: join, then strip one leading '/'. */
  function Normalize(command: Command): (r: string)
    ensures r == Joined(command) || ['/'] + r == Joined(command)
    ensures |Joined(command)| > 0 && Joined(command)[0] == '/' ==> |r| == |Joined(command)| - 1
  {
    var text := Joined(command);
    if |text| > 0 && text[0] == '/' then text[1..] else text
  }

  /** Normalising keeps a command encodable. */
  lemma NormalizeEncodable(command: Command)
    requires Encodable(Joined(command))
    ensures Encodable(Normalize(command))
  {
    var text := Joined(command);
    if |text| > 0 && text[0] == '/' {
      assert forall i :: 0 <= i < |text| - 1 ==> text[1..][i] == text[i + 1];
    }
  }

  /** Only one slash is stripped: a doubled slash leaves one in place. */
  lemma NormalizeStripsOneSlash(rest: string)
    ensures Normalize(Line("//" + rest)) == "/" + rest
  {
    assert ("//" + rest)[1..] == "/" + rest;
  }

  /** A token list is sent as its tokens separated by single spaces: splitting
      the normalised command on spaces gives the tokens back (when no token
      holds a space and the first does not start with '/'). */
  lemma {:induction false} NormalizeTokens(tokens: seq<string>)
    requires |tokens| >= 1
    requires forall k :: 0 <= k < |tokens| ==> ' ' !in tokens[k]
    requires tokens[0] == [] || tokens[0][0] != '/'
    ensures Split(Normalize(Tokens(tokens)), ' ') == tokens
  {
    SplitJoin(tokens, ' ');
  }

  /** The keyword `execute_command` classifies by: the first token (of the
      list, or of the string split on spaces) with every '/' removed, in
      lower case. An empty token list has no first token (IndexError). */
  function Keyword(command: Command): (r: Option<string>)
    ensures r.Some? ==> '/' !in r.value && Lower(r.value) == r.value
    ensures r.None? <==> command == Tokens([])
  {
    var first :=
      match command
      case Line(text) => Some(Split(text, ' ')[0])
      case Tokens(tokens) => if tokens == [] then None else Some(tokens[0]);
    match first
    case None => None
    case Some(token) =>
      var k := Lower(RemoveAll(token, '/'));
      LowerIdempotent(RemoveAll(token, '/'));
      assert forall i :: 0 <= i < |k| ==> k[i] != '/';
      Some(k)
  }

  /** The success test after a decoded reply: the flag is raised when the
      message starts with the keyword's expected prefix, and left as decoded
      otherwise; an empty token list fails with IndexError. */
  function Classify(response: Response, command: Command): (r: Result<Response>)
    ensures r.Err? <==> command == Tokens([])
    ensures r.Err? ==> r.error == IndexError
    ensures r.Ok? ==> r.value == response.(isSuccessful :=
      response.isSuccessful || StartsWith(response.message, GetInitial(Keyword(command).value)))
  {
    match Keyword(command)
    case None => Err(IndexError)
    case Some(keyword) =>
      if StartsWith(response.message, GetInitial(keyword)) then Ok(response.(isSuccessful := true))
      else Ok(response)
  }

  /** A keyword without an entry in the table has the empty prefix, so every
      reply to it is classified as successful. */
  lemma UnknownKeywordAlwaysSucceeds(response: Response, command: Command)
    requires command != Tokens([])
    requires Keyword(command).value !in Initials
    ensures Classify(response, command).Ok?
    ensures Classify(response, command).value.isSuccessful
  {
    LowerIdempotent(Keyword(command).value);
  }

  /** A plain lower-case word is its own keyword, whatever follows it
      after a space. */
  lemma KeywordOfWord(word: string, rest: string)
    requires ' ' !in word && '/' !in word && IsLower(word)
    ensures Keyword(Line(word)) == Some(word)
    ensures Keyword(Line(word + " " + rest)) == Some(word)
    ensures Split(word + " " + rest, ' ') == [word] + Split(rest, ' ')
  {
    SplitNoSep(word, ' ');
    SplitConcat(word, rest, ' ');
    RemoveAllAbsent(word, '/');
    LowerOfLower(word);
  }

  /** A broadcast is successful exactly when the reply starts with
      "Broadcasted:". */
  lemma BroadcastClassification(response: Response)
    requires !response.isSuccessful
    ensures Classify(response, Line(BroadcastKeyword)).value.isSuccessful
      <==> StartsWith(response.message, Initials[BroadcastKeyword])
  {
    PlainKeywords();
    KeywordOfWord(BroadcastKeyword, "");
    LowerOfLower(BroadcastKeyword);
  }

  /** The four helper keywords are plain lower-case words. */
  lemma PlainKeywords()
    ensures ' ' !in ShutdownKeyword && '/' !in ShutdownKeyword && IsLower(ShutdownKeyword)
    ensures ' ' !in BroadcastKeyword && '/' !in BroadcastKeyword && IsLower(BroadcastKeyword)
    ensures ' ' !in KickPlayerKeyword && '/' !in KickPlayerKeyword && IsLower(KickPlayerKeyword)
    ensures ' ' !in BanPlayerKeyword && '/' !in BanPlayerKeyword && IsLower(BanPlayerKeyword)
  {
  }

  /** The number of seconds `send_shutdown` sends, in each client. The
      blocking client maps None and values below one to one first; the
      asyncio client maps only None. Both then floor at five when saving
      first, and at one. */
  function ShutdownSeconds(flavour: Flavour, seconds: Option<int>, sendSave: Option<bool>): (r: int)
    ensures r >= 1
    ensures sendSave == Some(true) ==> r >= 5
  {
    var s :=
      if flavour.Blocking? then (if seconds.None? || seconds.value < 1 then 1 else seconds.value)
      else (if seconds.None? then 1 else seconds.value);
    var s' := if sendSave == Some(true) then Max(5, s) else s;
    Max(1, s')
  }

  function Max(a: int, b: int): int { if a < b then b else a }

  /** The defaulting differs between the clients, but the number sent does
      not: it is `seconds` (one when absent) floored at one, or at five when
      saving first. */
  lemma ShutdownSecondsAgree(seconds: Option<int>, sendSave: Option<bool>)
    ensures ShutdownSeconds(Blocking, seconds, sendSave) == ShutdownSeconds(Cooperative, seconds, sendSave)
    ensures ShutdownSeconds(Blocking, seconds, sendSave) ==
      Max(if sendSave == Some(true) then 5 else 1, if seconds.None? then 1 else seconds.value)
  {
  }

  const ShutdownKeyword: string := "shutdown"
  const BroadcastKeyword: string := "broadcast"
  const KickPlayerKeyword: string := "kickplayer"
  const BanPlayerKeyword: string := "banplayer"

  /** `f"shutdown {seconds}"`, then `" " + safe_message(message)` when the
      message is not empty (None counts as empty). The server splits a
      command at spaces, so it receives the keyword, the seconds and (when
      there is one) the escaped message as a single argument; the reply is
      classified as a shutdown. */
  function ShutdownCommand(seconds: int, message: Option<string>): (r: string)
    ensures var text := if message.None? then "" else message.value;
      Split(r, ' ') == [ShutdownKeyword, IntToDecimal(seconds)] + (if text != "" then [SafeMessage(text)] else [])
    ensures Keyword(Line(r)) == Some(ShutdownKeyword)
  {
    var text := if message.None? then "" else message.value;
    var tail := IntToDecimal(seconds) + (if text != "" then " " + SafeMessage(text) else "");
    PlainKeywords();
    ShutdownSplit(ShutdownKeyword, IntToDecimal(seconds), text);
    KeywordOfWord(ShutdownKeyword, tail);
    ShutdownKeyword + " " + tail
  }

  lemma ShutdownSplit(word: string, digits: string, text: string)
    requires ' ' !in word && ' ' !in digits
    ensures Split(word + " " + (digits + (if text != "" then " " + SafeMessage(text) else "")), ' ') ==
      [word, digits] + (if text != "" then [SafeMessage(text)] else [])
  {
    var tail := digits + (if text != "" then " " + SafeMessage(text) else "");
    SplitConcat(word, tail, ' ');
    assert word + " " + tail == word + [' '] + tail;
    if text != "" {
      var escaped := SafeMessage(text);
      SafeMessageHasNoSpace(text);
      SplitNoSep(escaped, ' ');
      SplitConcat(digits, escaped, ' ');
      assert tail == digits + [' '] + escaped;
    } else {
      SplitNoSep(digits, ' ');
      assert tail == digits;
    }
  }

  /** `f"broadcast {safe_message(message)}"`: the keyword and one argument,
      classified as a broadcast. */
  function BroadcastCommand(message: string): (r: string)
    ensures Split(r, ' ') == [BroadcastKeyword, SafeMessage(message)]
    ensures Keyword(Line(r)) == Some(BroadcastKeyword)
  {
    SafeMessageHasNoSpace(message);
    PlainKeywords();
    SplitNoSep(SafeMessage(message), ' ');
    KeywordOfWord(BroadcastKeyword, SafeMessage(message));
    BroadcastKeyword + " " + SafeMessage(message)
  }

  /** `str(steam_id)` for the two accepted types. */
  function FormatSteamId(id: SteamId): (r: string)
    ensures id.IdNumber? ==> ' ' !in r
  {
    match id
    case IdText(text) => text
    case IdNumber(n) => IntToDecimal(n)
  }

  /** `f"kickplayer {steam_id}"`: classified as a kick; the server receives
      everything after the first space as the id. */
  function KickPlayerCommand(id: SteamId): (r: string)
    ensures Split(r, ' ') == [KickPlayerKeyword] + Split(FormatSteamId(id), ' ')
    ensures Keyword(Line(r)) == Some(KickPlayerKeyword)
  {
    PlainKeywords();
    KeywordOfWord(KickPlayerKeyword, FormatSteamId(id));
    KickPlayerKeyword + " " + FormatSteamId(id)
  }

  /** `f"banplayer {steam_id}"`: classified as a ban; the server receives
      everything after the first space as the id. */
  function BanPlayerCommand(id: SteamId): (r: string)
    ensures Split(r, ' ') == [BanPlayerKeyword] + Split(FormatSteamId(id), ' ')
    ensures Keyword(Line(r)) == Some(BanPlayerKeyword)
  {
    PlainKeywords();
    KeywordOfWord(BanPlayerKeyword, FormatSteamId(id));
    BanPlayerKeyword + " " + FormatSteamId(id)
  }
}
