/** The data shared by the room server and its durable store: rooms, players,
    the fixed color palette and start positions, and the roster operations the
    socket handlers use (find the first player of a connection, drop every
    player of a connection). */
module Rooms {

  datatype Option<T> = None | Some(value: T)

  /** A token position: absolute start coordinates as assigned on join, or the
      percentages a client sends when it moves its token. */
  datatype Position = XY(x: int, y: int) | Pct(xPercent: real, yPercent: real)

  /** One participant of one room; `id` is the socket id of its connection. */
  datatype Player = Player(id: string, color: string, position: Position)

  /** Creation time of a room; the engine never inspects it. */
  type Timestamp = int

  datatype Room = Room(players: seq<Player>, createdAt: Timestamp)

  /** The process-wide table from room id to room. */
  type Table = map<string, Room>

  const PlayerColors: seq<string> := ["red", "blue", "green", "yellow", "purple"]

  const StartPositions: seq<Position> :=
    [XY(100, 100), XY(200, 200), XY(300, 100), XY(400, 100), XY(500, 100)]

  /** A room admits one player per palette color. */
  const MaxPlayers: nat := |PlayerColors|

  /** No room holds more players than there are colors. */
  predicate WithinCapacity(t: Table)
  {
    forall id :: id in t ==> |t[id].players| <= MaxPlayers
  }

  /** The player a join creates when the roster already has `n` players:
      color and start position are both picked by `n` modulo the palette size. */
  function NewPlayer(conn: string, n: nat): Player
  {
    Player(conn, PlayerColors[n % |PlayerColors|], StartPositions[n % |PlayerColors|])
  }

  /** Below capacity, two different join positions never share a color or a
      start position. */
  lemma NewPlayerByJoinOrder(conn: string, n: nat, other: string, m: nat)
    requires n < MaxPlayers && m < MaxPlayers && n != m
    ensures NewPlayer(conn, n).color != NewPlayer(other, m).color
    ensures NewPlayer(conn, n).position != NewPlayer(other, m).position
  {
  }

  /** Index of the first player whose id is `conn`, as `Array.prototype.find`
      picks it. */
  function FirstIndexOf(players: seq<Player>, conn: string): (r: Option<nat>)
    ensures r.Some? ==> r.value < |players| && players[r.value].id == conn
    ensures r.Some? ==> forall j :: 0 <= j < r.value ==> players[j].id != conn
    ensures r.None? <==> forall j :: 0 <= j < |players| ==> players[j].id != conn
  {
    if players == [] then None
    else if players[0].id == conn then Some(0)
    else match FirstIndexOf(players[1..], conn)
      case None => None
      case Some(i) => Some(i + 1)
  }

  /** The roster without the players of connection `conn`, as
      `players.filter(p => p.id !== conn)` computes it. */
  function WithoutPlayer(players: seq<Player>, conn: string): (r: seq<Player>)
    ensures |r| <= |players|
  {
    if players == [] then []
    else if players[0].id == conn then WithoutPlayer(players[1..], conn)
    else [players[0]] + WithoutPlayer(players[1..], conn)
  }

  /** `a` is `b` with some elements left out, the rest kept in their order. */
  predicate IsSubsequence(a: seq<Player>, b: seq<Player>)
    decreases |b|
  {
    if a == [] then true
    else if b == [] then false
    else if a[0] == b[0] then IsSubsequence(a[1..], b[1..])
    else IsSubsequence(a, b[1..])
  }

  /** A player survives the filter exactly when it belongs to another connection. */
  lemma {:induction false} WithoutPlayerMembers(players: seq<Player>, conn: string)
    ensures forall p :: p in WithoutPlayer(players, conn) <==> p in players && p.id != conn
  {
    if players != [] {
      WithoutPlayerMembers(players[1..], conn);
      assert players == [players[0]] + players[1..];
    }
  }

  /** Every player of another connection survives the filter as many times as
      it occurs in the roster, and no player of `conn` survives at all. */
  lemma {:induction false} WithoutPlayerCounts(players: seq<Player>, conn: string)
    ensures forall p: Player :: p.id != conn ==>
      multiset(WithoutPlayer(players, conn))[p] == multiset(players)[p]
    ensures forall p: Player :: p.id == conn ==> multiset(WithoutPlayer(players, conn))[p] == 0
  {
    if players != [] {
      WithoutPlayerCounts(players[1..], conn);
      assert players == [players[0]] + players[1..];
    }
  }

  /** The players who stay keep their relative order. */
  lemma {:induction false} WithoutPlayerKeepsOrder(players: seq<Player>, conn: string)
    ensures IsSubsequence(WithoutPlayer(players, conn), players)
  {
    if players != [] {
      WithoutPlayerKeepsOrder(players[1..], conn);
      var rest := WithoutPlayer(players[1..], conn);
      if players[0].id == conn {
        SubsequenceOfTail(rest, players);
      } else {
        assert ([players[0]] + rest)[1..] == rest;
      }
    }
  }

  /** Skipping one more element of the longer sequence keeps a subsequence. */
  lemma {:induction false} SubsequenceOfTail(a: seq<Player>, b: seq<Player>)
    requires b != [] && IsSubsequence(a, b[1..])
    ensures IsSubsequence(a, b)
    decreases |b|, |a|
  {
    if a != [] && a[0] == b[0] {
      // a[0] also occurs in b[1..] before the rest of a: peel it off there.
      SubsequenceDropHead(a, b[1..]);
    }
  }

  /** Dropping the first element of a subsequence keeps a subsequence. */
  lemma {:induction false} SubsequenceDropHead(a: seq<Player>, b: seq<Player>)
    requires a != [] && IsSubsequence(a, b)
    ensures IsSubsequence(a[1..], b)
    decreases |b|, |a|
  {
    assert b != [];
    if a[0] == b[0] {
      if a[1..] != [] {
        SubsequenceOfTail(a[1..], b);
      }
    } else {
      SubsequenceDropHead(a, b[1..]);
      if a[1..] != [] {
        SubsequenceOfTail(a[1..], b);
      }
    }
  }

  /** A roster that never held the connection comes out of the filter unchanged. */
  lemma {:induction false} WithoutAbsentPlayer(players: seq<Player>, conn: string)
    requires FirstIndexOf(players, conn).None?
    ensures WithoutPlayer(players, conn) == players
  {
    if players != [] {
      assert players[0].id != conn;
      assert FirstIndexOf(players[1..], conn).None? by {
        forall j | 0 <= j < |players[1..]| ensures players[1..][j].id != conn {
          assert players[1..][j] == players[j + 1];
        }
      }
      WithoutAbsentPlayer(players[1..], conn);
    }
  }
}
