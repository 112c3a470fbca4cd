/** `PlayerlistResponse.from_response` (src/pal_rcon/models.py): a loop over
    the lines of the reply that skips the header, splits every other line
    into three comma-separated fields, and sorts the players by whether their
    uid was resolved. */
module Playerlist {
  import opened Errors
  import opened Text
  import opened Models

  const Header: string := "name,playeruid,steamid"
  const UnresolvedUid: string := "00000000"

  /** `name, player_uid, steam_id = line.split(",")`: None when the line does
      not have exactly three fields (Python raises ValueError). */
  function ParseLine(line: string): (r: Option<Player>)
    ensures r.Some? <==> Count(line, ',') == 2
  {
    SplitLength(line, ',');
    var fields := Split(line, ',');
    if |fields| == 3 then Some(Player(fields[0], fields[1], fields[2])) else None
  }

  /** Where a line goes: skipped, failing, or into one of the two lists. */
  datatype Kind = HeaderLine | Malformed | ResolvedLine(p: Player) | UnresolvedLine(p: Player)

  function KindOf(line: string): (k: Kind)
    ensures k.Malformed? <==> line != Header && ParseLine(line).None?
    ensures k.UnresolvedLine? ==> k.p.playerUid == UnresolvedUid
    ensures k.ResolvedLine? ==> k.p.playerUid != UnresolvedUid
  {
    if line == Header then HeaderLine
    else
      match ParseLine(line)
      case None => Malformed
      case Some(p) => if p.playerUid == UnresolvedUid then UnresolvedLine(p) else ResolvedLine(p)
  }

  /** One iteration of the loop on the two lists built so far (None once
      a line failed). */
  function Step(acc: Option<(seq<Player>, seq<Player>)>, k: Kind): Option<(seq<Player>, seq<Player>)>
  {
    match acc
    case None => None
    case Some((players, invalid)) =>
      match k
      case HeaderLine => Some((players, invalid))
      case Malformed => None
      case ResolvedLine(p) => Some((players + [p], invalid))
      case UnresolvedLine(p) => Some((players, invalid + [p]))
  }

  /** Reference specification of the loop: the two lists after the given
      lines, folding `Step` from the first line to the last. */
  function Partition(lines: seq<string>): Option<(seq<Player>, seq<Player>)>
    decreases |lines|
  {
    if lines == [] then Some(([], []))
    else Step(Partition(lines[..|lines| - 1]), KindOf(lines[|lines| - 1]))
  }

  /** Every line other than the header parses. */
  predicate AllParse(lines: seq<string>) {
    forall k :: 0 <= k < |lines| ==> !KindOf(lines[k]).Malformed?
  }

  /** The pieces `f` gives for each line, joined from the first line on. */
  function Gather<T>(lines: seq<string>, f: string -> seq<T>): seq<T>
    decreases |lines|
  {
    if lines == [] then [] else f(lines[0]) + Gather(lines[1..], f)
  }

  /** What one line contributes to each list: its player when it has the
      matching kind, and the line itself unless it is the header. */
  function ResolvedPart(line: string): seq<Player> {
    var k := KindOf(line);
    if k.ResolvedLine? then [k.p] else []
  }

  function UnresolvedPart(line: string): seq<Player> {
    var k := KindOf(line);
    if k.UnresolvedLine? then [k.p] else []
  }

  function DataPart(line: string): seq<string> {
    if KindOf(line).HeaderLine? then [] else [line]
  }

  /** Independent reference definitions, from the first line on: the resolved
      players, the unresolved ones, and the lines that are not the header. */
  function Resolved(lines: seq<string>): seq<Player> {
    Gather(lines, ResolvedPart)
  }

  function Unresolved(lines: seq<string>): seq<Player> {
    Gather(lines, UnresolvedPart)
  }

  function DataLines(lines: seq<string>): seq<string> {
    Gather(lines, DataPart)
  }

  /** Gathering over two runs of lines joins what each run gathers. */
  lemma {:induction false} GatherConcat<T>(a: seq<string>, b: seq<string>, f: string -> seq<T>)
    ensures Gather(a + b, f) == Gather(a, f) + Gather(b, f)
    decreases |a|
  {
    if a == [] {
      assert [] + b == b;
    } else {
      assert (a + b)[0] == a[0] && (a + b)[1..] == a[1..] + b;
      GatherConcat(a[1..], b, f);
    }
  }

  lemma GatherOne<T>(line: string, f: string -> seq<T>)
    ensures Gather([line], f) == f(line)
  {
    assert [line][1..] == [];
  }

  /** The loop's specification agrees with the reference definitions: it
      fails exactly when some non-header line does not parse, and otherwise
      lists the resolved and the unresolved players in input order. */
  lemma {:induction false} PartitionIsReference(lines: seq<string>)
    ensures Partition(lines).Some? <==> AllParse(lines)
    ensures Partition(lines).Some? ==> Partition(lines).value == (Resolved(lines), Unresolved(lines))
    decreases |lines|
  {
    if lines != [] {
      var init := lines[..|lines| - 1];
      var line := lines[|lines| - 1];
      assert lines == init + [line];
      assert Partition(lines) == Step(Partition(init), KindOf(line));
      PartitionIsReference(init);
      GatherConcat(init, [line], ResolvedPart);
      GatherConcat(init, [line], UnresolvedPart);
      GatherOne(line, ResolvedPart);
      GatherOne(line, UnresolvedPart);
      if Partition(lines).Some? {
        var (ps, inv) := Partition(init).value;
        assert ps == Resolved(init) && inv == Unresolved(init);
        match KindOf(line)
        case HeaderLine =>
          assert Partition(lines) == Some((ps, inv));
          assert Resolved(lines) == ps + [] && Unresolved(lines) == inv + [];
          assert ps + [] == ps && inv + [] == inv;
        case ResolvedLine(p) =>
          assert Partition(lines) == Some((ps + [p], inv));
          assert Resolved(lines) == ps + [p] && Unresolved(lines) == inv + [];
          assert inv + [] == inv;
        case UnresolvedLine(p) =>
          assert Partition(lines) == Some((ps, inv + [p]));
          assert Resolved(lines) == ps + [] && Unresolved(lines) == inv + [p];
          assert ps + [] == ps;
      }
      AllParseSnoc(init, line);
    }
  }

  /** The lines with one more at the end all parse exactly when the first
      ones do and the new one does. */
  lemma AllParseSnoc(init: seq<string>, line: string)
    ensures AllParse(init + [line]) <==> AllParse(init) && !KindOf(line).Malformed?
  {
    var lines := init + [line];
    if AllParse(lines) {
      forall k | 0 <= k < |init| ensures !KindOf(init[k]).Malformed? {
        assert init[k] == lines[k];
      }
      assert lines[|init|] == line;
    }
    if AllParse(init) && !KindOf(line).Malformed? {
      forall k | 0 <= k < |lines| ensures !KindOf(lines[k]).Malformed? {
        if k < |init| { assert lines[k] == init[k]; }
      }
    }
  }

  /** Every non-header line ends up in exactly one of the two lists: the
      lists together are as long as the data lines, unresolved players are
      exactly those with uid "00000000". */
  lemma {:induction false} ResolvedUnresolvedCover(lines: seq<string>)
    requires AllParse(lines)
    ensures |Resolved(lines)| + |Unresolved(lines)| == |DataLines(lines)|
    ensures forall k :: 0 <= k < |Resolved(lines)| ==> Resolved(lines)[k].playerUid != UnresolvedUid
    ensures forall k :: 0 <= k < |Unresolved(lines)| ==> Unresolved(lines)[k].playerUid == UnresolvedUid
    decreases |lines|
  {
    if lines != [] {
      assert AllParse(lines[1..]) by {
        forall k | 0 <= k < |lines[1..]| ensures !KindOf(lines[1..][k]).Malformed? {
          assert lines[1..][k] == lines[k + 1];
        }
      }
      ResolvedUnresolvedCover(lines[1..]);
      assert !KindOf(lines[0]).Malformed?;
    }
  }

  /** A header line is skipped wherever it appears. */
  lemma HeaderSkippedAnywhere(before: seq<string>, after: seq<string>)
    ensures Resolved(before + [Header] + after) == Resolved(before + after)
    ensures Unresolved(before + [Header] + after) == Unresolved(before + after)
  {
    GatherConcat(before + [Header], after, ResolvedPart);
    GatherConcat(before + [Header], after, UnresolvedPart);
    GatherConcat(before, [Header], ResolvedPart);
    GatherConcat(before, [Header], UnresolvedPart);
    GatherConcat(before, after, ResolvedPart);
    GatherConcat(before, after, UnresolvedPart);
    GatherOne(Header, ResolvedPart);
    GatherOne(Header, UnresolvedPart);
  }

  /** An empty line makes the listing fail. */
  lemma EmptyLineRejected()
    ensures KindOf("") == Malformed
  {
    SplitLength("", ',');
  }

  /** A name that holds a comma makes the line split into more than three
      fields, so the listing fails. */
  lemma {:induction false} NameWithCommaRejected(name: string, uid: string, steamId: string)
    requires ',' in name
    ensures ParseLine(name + "," + uid + "," + steamId) == None
  {
    var line := name + "," + uid + "," + steamId;
    assert line == name + ("," + uid + "," + steamId);
    CountConcat(name, "," + uid + "," + steamId, ',');
    assert "," + uid + "," + steamId == "," + (uid + "," + steamId);
    CountConcat(",", uid + "," + steamId, ',');
    assert uid + "," + steamId == uid + ("," + steamId);
    CountConcat(uid, "," + steamId, ',');
    CountConcat(",", steamId, ',');
    CountPositive(name, ',');
    assert Count(",", ',') == 1;
  }

  lemma {:induction false} CountPositive(a: string, c: char)
    requires c in a
    ensures Count(a, c) >= 1
    decreases |a|
  {
    if a[0] != c {
      CountPositive(a[1..], c);
    }
  }

  lemma {:induction false} CountConcat(a: string, b: string, c: char)
    ensures Count(a + b, c) == Count(a, c) + Count(b, c)
    decreases |a|
  {
    if a != [] {
      assert (a + b)[1..] == a[1..] + b;
      CountConcat(a[1..], b, c);
    } else {
      assert a + b == b;
    }
  }

  /** A listing of a header and two players, the second of them
      unresolved (such as `Alice,11111111,…` then `Bob,00000000,…`): the
      first player goes to the resolved list, the second to the unresolved
      one, so the listing is not successful. */
  lemma TwoPlayerListing(first: Player, second: Player)
    requires Fields(first) && Fields(second)
    requires Row(first) != Header && Row(second) != Header
    requires first.playerUid != UnresolvedUid && second.playerUid == UnresolvedUid
    ensures var lines := SplitLines(Header + "\n" + Row(first) + "\n" + Row(second));
      && lines == [Header, Row(first), Row(second)]
      && AllParse(lines)
      && Resolved(lines) == [first]
      && Unresolved(lines) == [second]
  {
    var lines := [Header, Row(first), Row(second)];
    ThreeLines(Header, Row(first), Row(second));
    RowParses(first);
    RowParses(second);
    GatherThree(Header, Row(first), Row(second), ResolvedPart);
    GatherThree(Header, Row(first), Row(second), UnresolvedPart);
    assert forall k :: 0 <= k < 3 ==> !KindOf(lines[k]).Malformed?;
  }

  /** A player whose fields hold no comma and no newline. */
  predicate Fields(p: Player) {
    && ',' !in p.name && ',' !in p.playerUid && ',' !in p.steamId
    && '\n' !in p.name && '\n' !in p.playerUid && '\n' !in p.steamId
  }

  /** The line the server sends for a player. */
  function Row(p: Player): string {
    p.name + "," + p.playerUid + "," + p.steamId
  }

  /** A row parses back into its player and holds no newline. */
  lemma RowParses(p: Player)
    requires Fields(p)
    ensures ParseLine(Row(p)) == Some(p)
    ensures '\n' !in Row(p) && Row(p) != []
  {
    FieldsOf(p.name, p.playerUid, p.steamId);
    assert Row(p)[|p.name|] == ',';
  }

  /** Three lines without a newline, joined by newlines, split back apart. */
  lemma ThreeLines(a: string, b: string, c: string)
    requires '\n' !in a && '\n' !in b && '\n' !in c && c != []
    ensures SplitLines(a + "\n" + b + "\n" + c) == [a, b, c]
  {
    var text := a + "\n" + b + "\n" + c;
    assert text[|text| - 1] == c[|c| - 1];
    assert text == a + ['\n'] + (b + ['\n'] + c);
    SplitConcat(a, b + ['\n'] + c, '\n');
    SplitConcat(b, c, '\n');
    SplitNoSep(c, '\n');
  }

  lemma GatherThree<T>(a: string, b: string, c: string, f: string -> seq<T>)
    ensures Gather([a, b, c], f) == f(a) + f(b) + f(c)
  {
    assert [a, b, c] == [a] + [b] + [c];
    GatherConcat([a] + [b], [c], f);
    GatherConcat([a], [b], f);
    GatherOne(a, f);
    GatherOne(b, f);
    GatherOne(c, f);
  }

  /** Three comma-free fields joined by commas parse back into a player. */
  lemma FieldsOf(name: string, uid: string, steamId: string)
    requires ',' !in name && ',' !in uid && ',' !in steamId
    ensures ParseLine(name + "," + uid + "," + steamId) == Some(Player(name, uid, steamId))
  {
    assert name + "," + uid + "," + steamId == name + [','] + (uid + [','] + steamId);
    SplitConcat(name, uid + [','] + steamId, ',');
    SplitConcat(uid, steamId, ',');
    SplitNoSep(steamId, ',');
  }

  /** `from_response`: the loop over `packet.message.splitlines()`. The
      incoming `isSuccessful` is ignored; the result is successful exactly
      when no unresolved player was seen. */
  method FromResponse(packet: Response) returns (r: Result<PlayerList>)
    requires OnlyNewlineBreaks(packet.message)
    ensures var lines := SplitLines(packet.message);
      && (r.Ok? <==> AllParse(lines))
      && (r.Err? ==> r.error == ValueError)
      && (r.Ok? ==> r.value == PlayerList(
            packet.packetId, packet.packetType, packet.message, packet.rawMessage,
            packet.sendCommand, Unresolved(lines) == [],
            Resolved(lines), Unresolved(lines)))
  {
    var lines := SplitLines(packet.message);
    var players: seq<Player> := [];
    var invalidUidPlayers: seq<Player> := [];
    var isSuccessful := true;
    for i := 0 to |lines|
      invariant Partition(lines[..i]) == Some((players, invalidUidPlayers))
      invariant isSuccessful == (invalidUidPlayers == [])
    {
      var line := lines[i];
      PartitionPrefix(lines, i);
      if line != Header {
        var fields := Split(line, ',');
        if |fields| != 3 {
          assert KindOf(line) == Malformed;
          PartitionStaysFailed(lines, i + 1);
          PartitionIsReference(lines);
          return Err(ValueError);
        }
        var player := Player(fields[0], fields[1], fields[2]);
        if player.playerUid == UnresolvedUid {
          assert KindOf(line) == UnresolvedLine(player);
          invalidUidPlayers := invalidUidPlayers + [player];
          isSuccessful := false;
        } else {
          assert KindOf(line) == ResolvedLine(player);
          players := players + [player];
        }
      }
    }
    assert lines[..|lines|] == lines;
    PartitionIsReference(lines);
    r := Ok(PlayerList(packet.packetId, packet.packetType, packet.message, packet.rawMessage,
                       packet.sendCommand, isSuccessful, players, invalidUidPlayers));
  }

  lemma PartitionPrefix(lines: seq<string>, i: nat)
    requires i < |lines|
    ensures Partition(lines[..i + 1]) == Step(Partition(lines[..i]), KindOf(lines[i]))
  {
    assert lines[..i + 1][..i] == lines[..i];
    assert lines[..i + 1][i] == lines[i];
  }

  /** Once a prefix of the lines fails, the whole listing fails. */
  lemma {:induction false} PartitionStaysFailed(lines: seq<string>, n: nat)
    requires n <= |lines| && Partition(lines[..n]).None?
    ensures Partition(lines).None?
    decreases |lines| - n
  {
    if n < |lines| {
      PartitionPrefix(lines, n);
      PartitionStaysFailed(lines, n + 1);
    } else {
      assert lines[..n] == lines;
    }
  }
}
