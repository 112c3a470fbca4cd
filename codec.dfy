/** The framing checks of `_receive_response` (src/pal_rcon/pal_rcon.py and
    its asyncio twin): the reply is the four length bytes read first and the
    payload read after them; the payload is parsed and validated in a fixed
    order. */
module Codec {
  import opened Errors
  import opened Wire
  import opened Models

  /** `response[8:-2]`, with Python's slicing: empty when the payload has
      fewer than ten bytes. */
  function MessageBytes(payload: seq<byte>): (r: seq<byte>)
    requires |payload| >= 8
    ensures |r| == if |payload| >= 10 then |payload| - 10 else 0
  {
    if |payload| >= 10 then payload[8..|payload| - 2] else []
  }

  /** `response[-2:]`. */
  function Terminator(payload: seq<byte>): (r: seq<byte>)
    requires |payload| >= 8
    ensures |r| == 2
  {
    payload[|payload| - 2..]
  }

  /** What the decoder is modelled for: a four-byte length prefix, a payload
      long enough for `struct.unpack("<iI", response[:8])`, and a message that
      `bytes.decode()` accepts (here: ASCII). */
  predicate Decodable(prefix: seq<byte>, payload: seq<byte>) {
    |prefix| == 4 && |payload| >= 8 && IsAsciiBytes(MessageBytes(payload))
  }

  /** `message.decode()[:-1]`: drop the last character, if any. */
  function DropLast(s: string): (r: string)
    ensures s != [] ==> r + [s[|s| - 1]] == s
    ensures s == [] ==> r == []
  {
    if s == [] then [] else s[..|s| - 1]
  }

  /** `_receive_response` after the two reads. A mismatch between the reply's
      id and `sent`'s id is only logged, so `sent` is merely recorded. */
  function Decode(prefix: seq<byte>, payload: seq<byte>, sent: Packet): (r: Result<Response>)
    requires Decodable(prefix, payload)
    ensures r.Err? ==> r.error.AuthenticationFailed? || IsFraming(r.error)
    ensures r.Ok? ==>
      && r.value.packetId != -1
      && r.value.rawMessage == Some(prefix + payload)
      && r.value.sendCommand == Some(sent)
      && !r.value.isSuccessful
      && |r.value.message| == |MessageBytes(payload)| - (if MessageBytes(payload) == [] then 0 else 1)
      && (forall i :: 0 <= i < |r.value.message| ==> r.value.message[i] as int == MessageBytes(payload)[i])
  {
    var packetId := ReadI32LE(payload[..4]);
    var responseType := ReadU32LE(payload[4..8]);
    var message := MessageBytes(payload);
    if packetId == -1 then Err(AuthenticationFailed)
    else if Terminator(payload) != [0, 0] then Err(InvalidPacket)
    else if |message| > 0 && message[|message| - 1] != 10 then Err(IncompleteMessage(message))
    else Ok(Response(packetId, responseType, DropLast(AsciiDecode(message)), Some(prefix + payload), Some(sent), false))
  }

  /** The id -1 means a rejected login, whatever else the payload holds. */
  lemma DecodeAuthSentinel(prefix: seq<byte>, payload: seq<byte>, sent: Packet)
    requires Decodable(prefix, payload)
    requires payload[..4] == [255, 255, 255, 255]
    ensures Decode(prefix, payload, sent) == Err(AuthenticationFailed)
  {
  }

  /** The error Decode reports, by the order of its checks: id first, then the
      terminator, then the trailing newline; IncompleteMessage carries the
      message bytes exactly. */
  lemma DecodeErrors(prefix: seq<byte>, payload: seq<byte>, sent: Packet)
    requires Decodable(prefix, payload)
    ensures var r := Decode(prefix, payload, sent);
      && (r == Err(AuthenticationFailed) <==> ReadI32LE(payload[..4]) == -1)
      && (r == Err(InvalidPacket) <==>
            ReadI32LE(payload[..4]) != -1 && Terminator(payload) != [0, 0])
      && (r.Err? && r.error.IncompleteMessage? <==>
            && ReadI32LE(payload[..4]) != -1 && Terminator(payload) == [0, 0]
            && MessageBytes(payload) != [] && MessageBytes(payload)[|MessageBytes(payload)| - 1] != 10)
      && (r.Err? && r.error.IncompleteMessage? ==> r.error.raw == MessageBytes(payload))
  {
  }

  /** A successful decode returns the text of the message minus its newline:
      putting the newline back (when the message was not empty) gives the
      decoded message bytes, and the id and type come from the header. */
  lemma DecodeSuccess(prefix: seq<byte>, payload: seq<byte>, sent: Packet)
    requires Decodable(prefix, payload)
    requires Decode(prefix, payload, sent).Ok?
    ensures var resp := Decode(prefix, payload, sent).value;
      && resp.packetId == ReadI32LE(payload[..4])
      && resp.packetType == ReadU32LE(payload[4..8])
      && Terminator(payload) == [0, 0]
      && AsciiEncode(if MessageBytes(payload) == [] then resp.message else resp.message + "\n")
         == MessageBytes(payload)
  {
    var m := MessageBytes(payload);
    var resp := Decode(prefix, payload, sent).value;
    var text := AsciiDecode(m);
    if m != [] {
      assert resp.message + [text[|text| - 1]] == text;
      assert text[|text| - 1] == '\n';
      assert resp.message + "\n" == text;
    }
    var back := AsciiEncode(if m == [] then resp.message else resp.message + "\n");
    assert back == m by {
      assert |back| == |m|;
      assert forall i :: 0 <= i < |m| ==> back[i] == m[i];
    }
  }

  /** Round trip: decoding what `pack_message` produced, for an id the
      client can generate and a message that is empty or ends in a newline,
      gives back the id, the type and the message without its newline. */
  lemma {:induction false} DecodePackMessage(p: Packet, sent: Packet)
    requires Packable(p) && p.packetId < TWO31
    requires p.message == [] || p.message[|p.message| - 1] == '\n'
    ensures var wire := PackMessage(p);
      && Decodable(wire[..4], wire[4..])
      && Decode(wire[..4], wire[4..], sent) ==
         Ok(Response(p.packetId, p.packetType, DropLast(p.message), Some(wire), Some(sent), false))
  {
    var wire := PackMessage(p);
    var payload := wire[4..];
    assert payload[..4] == wire[4..8];
    assert payload[4..8] == wire[8..12];
    assert payload[..4] == U32LE(p.packetId) by {
      assert wire[4..8] == U32LE(p.packetId);
    }
    ReadI32LEOfU32LE(p.packetId);
    assert MessageBytes(payload) == AsciiEncode(p.message);
    assert Terminator(payload) == [0, 0];
    AsciiDecodeEncode(p.message);
    assert wire[..4] + payload == wire;
  }

  /** Why the id range matters: an id that `pack_message` accepts but that
      is at least 2^31 comes back negative, and 2^32 - 1 comes back as the
      rejected-login sentinel. */
  lemma {:induction false} DecodeWrapsLargeIds(p: Packet, sent: Packet)
    requires Packable(p) && p.packetId == TWO32 - 1
    ensures var wire := PackMessage(p);
      Decodable(wire[..4], wire[4..]) ==> Decode(wire[..4], wire[4..], sent) == Err(AuthenticationFailed)
  {
    var wire := PackMessage(p);
    assert wire[4..][..4] == wire[4..8];
    assert wire[4..8] == U32LE(p.packetId);
    ReadI32LEOfU32LE(p.packetId);
  }
}
