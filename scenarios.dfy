/** Client runs of the room server, proved from the handlers' contracts alone:
    they pin down what concrete sequences of requests leave in the table and
    in the outbound log. Each starts from a server whose startup load failed. */
module Scenarios {
  import opened Rooms
  import opened Store
  import opened Server

  /** Create a room, two connections join, the first moves and then leaves. */
  method JoinMoveLeave() returns (joined: seq<Player>, moved: seq<Player>, notice: Effect, left: seq<Player>)
    ensures joined == [Player("c1", "red", XY(100, 100)), Player("c2", "blue", XY(200, 200))]
    ensures moved == [Player("c1", "red", Pct(42.0, 7.0)), Player("c2", "blue", XY(200, 200))]
    ensures notice == ToRoom("R", UpdatePlayers(moved))
    ensures left == [Player("c2", "blue", XY(200, 200))]
  {
    var store := new BlobStore(None);
    var e := new RoomEngine(store, true);
    var reply := e.CreateRoom(Some("pw"), Some("pw"), "R", 0);
    e.JoinRoom("c1", Some("R"));
    e.JoinRoom("c2", Some("R"));
    joined := e.rooms["R"].players;
    e.MovePlayer("c1", "R", 42.0, 7.0);
    moved := e.rooms["R"].players;
    notice := e.log[|e.log| - 1];
    ghost var order := e.Disconnect("c1");
    left := e.rooms["R"].players;
    assert moved[1..][1..] == [];
    assert left == WithoutPlayer(moved[1..], "c1");
  }

  /** The start slot and the color follow the roster length, not the free
      slots: after the first of two players leaves, the next joiner gets the
      same color and start position as the player who stayed. */
  method RejoinReusesColor() returns (roster: seq<Player>)
    ensures roster == [Player("a", "blue", XY(200, 200)), Player("c", "blue", XY(200, 200))]
  {
    var store := new BlobStore(None);
    var e := new RoomEngine(store, false);
    var reply := e.CreateRoom(None, None, "R", 0);
    e.JoinRoom("b", Some("R"));
    e.JoinRoom("a", Some("R"));
    var two := e.rooms["R"].players;
    assert two == [Player("b", "red", XY(100, 100)), Player("a", "blue", XY(200, 200))];
    ghost var order := e.Disconnect("b");
    assert two[1..][1..] == [];
    assert e.rooms["R"].players == WithoutPlayer(two[1..], "b");
    assert e.rooms["R"].players == [Player("a", "blue", XY(200, 200))];
    e.JoinRoom("c", Some("R"));
    roster := e.rooms["R"].players;
  }

  /** A connection that joins twice holds two entries; a move changes only the
      first, and a disconnect removes both. */
  method DoubleJoin() returns (moved: seq<Player>, left: seq<Player>)
    ensures moved == [Player("c", "red", Pct(1.0, 2.0)), Player("c", "blue", XY(200, 200))]
    ensures left == []
  {
    var store := new BlobStore(None);
    var e := new RoomEngine(store, false);
    var reply := e.CreateRoom(Some("pw"), Some("pw"), "R", 0);
    e.JoinRoom("c", Some("R"));
    e.JoinRoom("c", Some("R"));
    var two := e.rooms["R"].players;
    assert two == [Player("c", "red", XY(100, 100)), Player("c", "blue", XY(200, 200))];
    assert FirstIndexOf(two, "c") == Some(0);
    e.MovePlayer("c", "R", 1.0, 2.0);
    moved := e.rooms["R"].players;
    assert moved == two[0 := two[0].(position := Pct(1.0, 2.0))];
    ghost var order := e.Disconnect("c");
    left := e.rooms["R"].players;
    assert moved[1..][1..] == [];
    assert left == WithoutPlayer(moved[1..], "c");
    assert left == WithoutPlayer(moved[1..][1..], "c");
  }

  /** Five joins fill a room; the sixth is answered with `roomFull` to its
      sender only and leaves the roster as it was. */
  method SixthJoinRefused() returns (before: seq<Player>, after: seq<Player>, notice: Effect)
    ensures |before| == MaxPlayers && after == before
    ensures notice == ToSender("f", RoomFull)
  {
    var store := new BlobStore(None);
    var e := new RoomEngine(store, false);
    var reply := e.CreateRoom(None, None, "R", 0);
    e.JoinRoom("1", Some("R"));
    e.JoinRoom("2", Some("R"));
    e.JoinRoom("3", Some("R"));
    e.JoinRoom("4", Some("R"));
    e.JoinRoom("5", Some("R"));
    before := e.rooms["R"].players;
    e.JoinRoom("f", Some("R"));
    after := e.rooms["R"].players;
    notice := e.log[|e.log| - 1];
  }
}
