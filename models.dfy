/** The records of src/pal_rcon/models.py and the encoder
    `CommandPacket.pack_message`. */
module Models {
  import opened Errors
  import opened Wire

  /** `CommandPacket`: an outbound packet (type 3 = auth, 2 = command). */
  datatype Packet = Packet(
    packetId: int,
    packetType: int,
    message: string,
    rawMessage: Option<seq<byte>>)

  /** `CommandResponse`: a decoded reply, the packet that asked for it, and
      the success flag set by classification (false until then). */
  datatype Response = Response(
    packetId: int,
    packetType: int,
    message: string,
    rawMessage: Option<seq<byte>>,
    sendCommand: Option<Packet>,
    isSuccessful: bool)

  /** `Player`: one row of the player listing. */
  datatype Player = Player(name: string, playerUid: string, steamId: string)

  /** `PlayerlistResponse`: a response with the parsed rows, split into
      resolved players and players whose uid is unresolved. */
  datatype PlayerList = PlayerList(
    packetId: int,
    packetType: int,
    message: string,
    rawMessage: Option<seq<byte>>,
    sendCommand: Option<Packet>,
    isSuccessful: bool,
    players: seq<Player>,
    invalidUidPlayers: seq<Player>)

  const AuthType: int := 3
  const CommandType: int := 2

  /** Text `pack_message` can carry: ASCII, and short enough for the
      length field. */
  predicate Encodable(message: string) {
    IsAscii(message) && |message| + 10 < TWO32
  }

  /** What `pack_message` accepts without raising: encodable text, and id
      and type within `struct.pack("<III")`'s unsigned range. */
  predicate Packable(p: Packet) {
    && Encodable(p.message)
    && 0 <= p.packetId < TWO32
    && 0 <= p.packetType < TWO32
  }

  /** `pack_message`: length field, id, type, ASCII body, two zero bytes. */
  function PackMessage(p: Packet): (r: seq<byte>)
    requires Packable(p)
    ensures |r| == |p.message| + 14
    ensures ReadU32LE(r[..4]) == |r| - 4
    ensures ReadU32LE(r[4..8]) == p.packetId
    ensures ReadU32LE(r[8..12]) == p.packetType
    ensures r[12..|r| - 2] == AsciiEncode(p.message)
    ensures r[|r| - 2..] == [0, 0]
  {
    var body := AsciiEncode(p.message);
    var r := U32LE(|body| + 10) + U32LE(p.packetId) + U32LE(p.packetType) + body + [0, 0];
    assert r[..4] == U32LE(|body| + 10);
    assert r[4..8] == U32LE(p.packetId);
    assert r[8..12] == U32LE(p.packetType);
    ReadU32LEOfU32LE(|body| + 10);
    ReadU32LEOfU32LE(p.packetId);
    ReadU32LEOfU32LE(p.packetType);
    r
  }
}
