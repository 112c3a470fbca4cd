/** src/pal_rcon/utils.py: packet ids, message escaping, attempt counts and
    the expected-prefix table used to classify responses. */
module Utils {
  import opened Errors
  import opened Text
  import Wire

  /** Smallest and largest id `generate_packet_id` draws. */
  const MinPacketId: int := 1
  const MaxPacketId: int := 0x7FFF_FFFF

  /** The values `random.randint(1, 2**31 - 1)` will return, in order: the
      generator is a parameter of the model. */
  predicate IdsInRange(ids: seq<int>) {
    forall i :: 0 <= i < |ids| ==> MinPacketId <= ids[i] <= MaxPacketId
  }

  /** `generate_packet_id`: the next value of the supply; an exhausted
      supply gives the smallest id. The id survives being packed unsigned
      and read back signed, so a reply echoing it never looks like the
      login-failure sentinel -1. */
  function NextId(ids: seq<int>): (r: int)
    requires IdsInRange(ids)
    ensures MinPacketId <= r <= MaxPacketId
    ensures Wire.ReadI32LE(Wire.U32LE(r)) == r
  {
    var r := if ids == [] then MinPacketId else ids[0];
    Wire.ReadI32LEOfU32LE(r);
    r
  }

  /** The supply after one draw: still ids the generator may return. */
  function DropId(ids: seq<int>): (r: seq<int>)
    requires IdsInRange(ids)
    ensures IdsInRange(r)
  {
    if ids == [] then [] else ids[1..]
  }

  /** Each draw uses up one value: the drawn id followed by what is left is
      the supply as it was, and an exhausted supply stays exhausted. */
  lemma DrawUsesOneId(ids: seq<int>)
    requires IdsInRange(ids)
    ensures ids != [] ==> ids == [NextId(ids)] + DropId(ids) && |DropId(ids)| == |ids| - 1
    ensures ids == [] ==> DropId(ids) == []
  {
  }

  /** `safe_message`: `message.replace(" ", "_")`. */
  function SafeMessage(message: string): (r: string)
    ensures |r| == |message|
    ensures forall i :: 0 <= i < |message| ==>
      r[i] == (if message[i] == ' ' then '_' else message[i])
    decreases |message|
  {
    if message == [] then []
    else [if message[0] == ' ' then '_' else message[0]] + SafeMessage(message[1..])
  }

  /** The escaped message contains no space. */
  lemma SafeMessageHasNoSpace(message: string)
    ensures ' ' !in SafeMessage(message)
  {
    var r := SafeMessage(message);
    assert forall i :: 0 <= i < |r| ==> r[i] != ' ';
  }

  /** Escaping twice is escaping once. */
  lemma SafeMessageIdempotent(message: string)
    ensures SafeMessage(SafeMessage(message)) == SafeMessage(message)
  {
    var once := SafeMessage(message);
    var twice := SafeMessage(once);
    assert forall i :: 0 <= i < |once| ==> twice[i] == once[i];
  }

  /** `check_max_attempts`: None and values below one become one. */
  function CheckMaxAttempts(maxAttempts: Option<int>): (r: int)
    ensures r >= 1
    ensures maxAttempts.Some? && maxAttempts.value >= 1 ==> r == maxAttempts.value
    ensures maxAttempts.None? || maxAttempts.value < 1 ==> r == 1
  {
    if maxAttempts.None? || maxAttempts.value < 1 then 1 else maxAttempts.value
  }

  /** The expected response prefix per command keyword, as a table. */
  const Initials: map<string, string> := map[
    "shutdown" := "The",
    "doexit" := "Shutdown",
    "broadcast" := "Broadcasted:",
    "kickplayer" := "Kicked:",
    "banplayer" := "Baned:",
    "showplayers" := "name",
    "info" := "Welcome",
    "save" := "Complete"
  ]

  /** The `match` of `get_initial`, on an already lower-cased keyword: the
      table's prefix, or "" for a keyword outside it. No prefix in the table
      is empty, so "" means exactly "not a known keyword". */
  function InitialOf(keyword: string): (r: string)
    ensures r != "" <==> keyword in Initials
    ensures keyword in Initials ==> r == Initials[keyword]
  {
    if keyword in Initials then Initials[keyword] else ""
  }

  /** `get_initial`: lower-case the keyword, then look up its prefix. */
  function GetInitial(command: string): (r: string)
    ensures r != "" <==> Lower(command) in Initials
    ensures Lower(command) in Initials ==> r == Initials[Lower(command)]
  {
    InitialOf(Lower(command))
  }

  /** `get_initial` ignores letter case. */
  lemma GetInitialIgnoresCase(command: string)
    ensures GetInitial(command) == GetInitial(Lower(command))
  {
    LowerIdempotent(command);
  }
}
