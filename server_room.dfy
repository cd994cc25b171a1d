/**
 * Game rooms (server/Room.js): a room holds up to two players, the sides
 * they were given and whose turn it is; a room list is the registry of
 * the rooms of one kind (public matchmaking or custom rooms). Players are
 * references to the objects of the player list.
 */
module Rooms {
  import opened Wrappers
  import opened ServerPlayers

  /** The `type` of a room and of a room list: 'public' or 'custom'. */
  datatype RoomType = Public | Custom

  /** The result of GetPlayerSide when it is not null: 'white' or 'black'. */
  datatype Side = White | Black

  /** `players[i]` in JavaScript: undefined past the end. */
  function At(ps: seq<Player>, i: nat): (r: Option<Player>)
    ensures r.Some? <==> i < |ps|
    ensures r.Some? ==> r.value == ps[i]
  {
    if i < |ps| then Some(ps[i]) else None
  }

  /** `find(player => player.ID != id)`: the first player with another ID, or none. */
  function FirstOther(ps: seq<Player>, id: string): (r: Option<Player>)
    ensures r.None? <==> forall k :: 0 <= k < |ps| ==> ps[k].id == id
    ensures r.Some? ==> r.value.id != id && r.value in ps
    ensures r.Some? ==> exists i :: 0 <= i < |ps| && ps[i] == r.value && forall k :: 0 <= k < i ==> ps[k].id == id
  {
    if ps == [] then None
    else if ps[0].id != id then Some(ps[0])
    else
      var r := FirstOther(ps[1..], id);
      assert forall k :: 0 < k < |ps| ==> ps[k] == ps[1..][k - 1];
      if r.Some? then
        var i :| 0 <= i < |ps[1..]| && ps[1..][i] == r.value && forall k :: 0 <= k < i ==> ps[1..][k].id == id;
        assert ps[i + 1] == r.value && forall k :: 0 <= k < i + 1 ==> ps[k].id == id;
        r
      else r
  }

  /**
   * SwitchTurn on values: white's turn becomes black's and black's becomes
   * white's (compared by reference, testing white first); any other turn
   * stays.
   */
  function Switched(turn: Option<Player>, white: Option<Player>, black: Option<Player>): Option<Player> {
    if turn == white then black else if turn == black then white else turn
  }

  /** Switching twice gives back the turn it started from, whatever the sides. */
  lemma SwitchedTwice(turn: Option<Player>, white: Option<Player>, black: Option<Player>)
    ensures Switched(Switched(turn, white, black), white, black) == turn
  {
  }

  /** Switching moves the turn between the two sides and leaves a turn of neither side alone. */
  lemma SwitchedSides(turn: Option<Player>, white: Option<Player>, black: Option<Player>)
    requires white != black
    ensures turn == white ==> Switched(turn, white, black) == black
    ensures turn == black ==> Switched(turn, white, black) == white
    ensures turn != white && turn != black ==> Switched(turn, white, black) == turn
  {
  }

  /** A game room. */
  class Room {
    /** `ID`, the generated room code (taken as a parameter). */
    const id: string
    /** `type`. */
    const roomType: RoomType
    /** `players`, in order of joining. */
    var players: seq<Player>
    /** `count`. */
    var count: int
    /** `host`. */
    var host: Option<Player>
    /** `white_side_player`. */
    var white: Option<Player>
    /** `black_side_player`. */
    var black: Option<Player>
    /** `current_player_turn`. */
    var currentTurn: Option<Player>
    /** `has_started`. */
    var hasStarted: bool

    /** The bookkeeping AddPlayer and RemovePlayer keep: `count` is the number of players. */
    predicate CountMatches()
      reads this
    {
      count == |players|
    }

    /** A new room of the given type and ID: empty, no host, no sides, not started. */
    constructor(roomType: RoomType, id: string)
      ensures this.roomType == roomType && this.id == id
      ensures players == [] && count == 0 && CountMatches()
      ensures host.None? && white.None? && black.None? && currentTurn.None? && !hasStarted
    {
      this.id := id;
      this.roomType := roomType;
      players := [];
      count := 0;
      host := None;
      white := None;
      black := None;
      currentTurn := None;
      hasStarted := false;
    }

    /** SetHost. */
    method SetHost(p: Player)
      modifies this
      ensures host == Some(p)
      ensures players == old(players) && count == old(count) && white == old(white) && black == old(black)
      ensures currentTurn == old(currentTurn) && hasStarted == old(hasStarted)
    {
      host := Some(p);
    }

    /** AddPlayer: append the player and count it. */
    method AddPlayer(p: Player)
      modifies this
      ensures players == old(players) + [p] && count == old(count) + 1
      ensures old(CountMatches()) ==> CountMatches()
      ensures host == old(host) && white == old(white) && black == old(black)
      ensures currentTurn == old(currentTurn) && hasStarted == old(hasStarted)
    {
      players := players + [p];
      count := count + 1;
    }

    /** RemovePlayer: remove the first player with that ID and uncount it; with none, change nothing. */
    method RemovePlayer(id: string)
      modifies this
      ensures players == RemoveFirstID(old(players), id)
      ensures count == if IndexOfID(old(players), id) < 0 then old(count) else old(count) - 1
      ensures old(CountMatches()) ==> CountMatches()
      ensures host == old(host) && white == old(white) && black == old(black)
      ensures currentTurn == old(currentTurn) && hasStarted == old(hasStarted)
    {
      var i := GetPlayerIndex(id);
      if i < 0 {
        return;
      }
      players := players[..i] + players[i + 1..];
      count := count - 1;
    }

    /** GetPlayerByID: the first player with that ID, or none. */
    function GetPlayerByID(id: string): (r: Option<Player>)
      reads this
      ensures r.None? <==> forall k :: 0 <= k < |players| ==> players[k].id != id
      ensures r.Some? ==> r.value.id == id && r.value in players
      ensures r.Some? ==> exists i :: 0 <= i < |players| && players[i] == r.value && forall k :: 0 <= k < i ==> players[k].id != id
    {
      FindByID(players, id)
    }

    /** GetOtherPlayer: the first player whose ID is not `id`, or none when every player has it. */
    function GetOtherPlayer(id: string): (r: Option<Player>)
      reads this
      ensures r.None? <==> forall k :: 0 <= k < |players| ==> players[k].id == id
      ensures r.Some? ==> r.value.id != id && r.value in players
    {
      FirstOther(players, id)
    }

    /** GetPlayerIndex: the position of the first player with that ID; -1 exactly when there is none. */
    function GetPlayerIndex(id: string): (i: int)
      reads this
      ensures -1 <= i < |players|
      ensures i == -1 <==> forall k :: 0 <= k < |players| ==> players[k].id != id
      ensures 0 <= i ==> players[i].id == id && forall k :: 0 <= k < i ==> players[k].id != id
    {
      IndexOfIDSpec(players, id);
      IndexOfID(players, id)
    }

    /**
     * GetPlayerSide: white when the white player has that ID, otherwise
     * black when the black player has it, otherwise none (null). The source
     * reads the ID of the white player, and of the black player when the
     * first test fails, so those must be set.
     */
    function GetPlayerSide(id: string): (r: Option<Side>)
      reads this
      requires white.Some? && (white.value.id == id || black.Some?)
      ensures r == Some(White) <==> white.value.id == id
      ensures r == Some(Black) <==> white.value.id != id && black.value.id == id
      ensures r.None? <==> white.value.id != id && black.value.id != id
    {
      if white.value.id == id then Some(White)
      else if black.value.id == id then Some(Black)
      else None
    }

    /**
     * SetRandomSides, with the coin `Math.floor(Math.random() * 2)` as a
     * parameter (`coinIsZero` for 0): white and black are the first two
     * players in one order or the other, and it is white's turn.
     */
    method SetRandomSides(coinIsZero: bool)
      modifies this
      ensures white == At(players, if coinIsZero then 0 else 1)
      ensures black == At(players, if coinIsZero then 1 else 0)
      ensures currentTurn == white
      ensures |players| >= 2 ==>
                (white == Some(players[0]) && black == Some(players[1])) ||
                (white == Some(players[1]) && black == Some(players[0]))
      ensures players == old(players) && count == old(count) && host == old(host) && hasStarted == old(hasStarted)
    {
      white := if coinIsZero then At(players, 0) else At(players, 1);
      black := if coinIsZero then At(players, 1) else At(players, 0);
      currentTurn := white;
    }

    /** SwitchTurn: the turn passes from white to black or from black to white; a turn of neither stays. */
    method SwitchTurn()
      modifies this
      ensures currentTurn == Switched(old(currentTurn), white, black)
      ensures white != black && old(currentTurn) == white ==> currentTurn == black
      ensures white != black && old(currentTurn) == black ==> currentTurn == white
      ensures players == old(players) && count == old(count) && host == old(host)
      ensures white == old(white) && black == old(black) && hasStarted == old(hasStarted)
    {
      if currentTurn == white {
        currentTurn := black;
      } else if currentTurn == black {
        currentTurn := white;
      }
    }
  }

  /**
   * Once the sides of a two-player room are set, two players of the room
   * with different IDs are told opposite sides.
   */
  lemma OppositeSides(room: Room, a: string, b: string)
    requires |room.players| == 2
    requires (room.white == Some(room.players[0]) && room.black == Some(room.players[1])) ||
             (room.white == Some(room.players[1]) && room.black == Some(room.players[0]))
    requires a != b && room.GetPlayerByID(a).Some? && room.GetPlayerByID(b).Some?
    ensures room.GetPlayerSide(a).Some? && room.GetPlayerSide(b).Some?
    ensures room.GetPlayerSide(a) != room.GetPlayerSide(b)
  {
    var pa := room.GetPlayerByID(a).value;
    var pb := room.GetPlayerByID(b).value;
    assert pa == room.players[0] || pa == room.players[1];
    assert pb == room.players[0] || pb == room.players[1];
  }

  /** `findIndex(room => room.ID == id)`: the first position of a room with that ID, or -1. */
  function IndexOfRoom(rs: seq<Room>, id: string): (i: int)
    ensures -1 <= i < |rs|
    ensures 0 <= i ==> rs[i].id == id
  {
    if rs == [] then -1
    else if rs[0].id == id then 0
    else
      var i := IndexOfRoom(rs[1..], id);
      if i < 0 then -1 else i + 1
  }

  /** IndexOfRoom is -1 exactly when no room has that ID, and otherwise the position of the first one that does. */
  lemma {:induction false} IndexOfRoomSpec(rs: seq<Room>, id: string)
    ensures IndexOfRoom(rs, id) == -1 <==> forall k :: 0 <= k < |rs| ==> rs[k].id != id
    ensures 0 <= IndexOfRoom(rs, id) ==> forall k :: 0 <= k < IndexOfRoom(rs, id) ==> rs[k].id != id
  {
    if rs != [] && rs[0].id != id {
      IndexOfRoomSpec(rs[1..], id);
      assert forall k :: 0 < k < |rs| ==> rs[k] == rs[1..][k - 1];
    }
  }

  /** `splice(findIndex(..), 1)` after the `< 0` test: the list without its first room with that ID. */
  function RemoveFirstRoom(rs: seq<Room>, id: string): seq<Room> {
    var i := IndexOfRoom(rs, id);
    if i < 0 then rs else rs[..i] + rs[i + 1..]
  }

  /** With no room of that ID nothing is removed; otherwise exactly the first room with that ID goes. */
  lemma RemoveFirstRoomSpec(rs: seq<Room>, id: string)
    ensures IndexOfRoom(rs, id) < 0 ==> RemoveFirstRoom(rs, id) == rs
    ensures 0 <= IndexOfRoom(rs, id) ==>
              |RemoveFirstRoom(rs, id)| == |rs| - 1 &&
              multiset(RemoveFirstRoom(rs, id)) + multiset{rs[IndexOfRoom(rs, id)]} == multiset(rs)
  {
    var i := IndexOfRoom(rs, id);
    if 0 <= i {
      SpliceSpec(rs, i);
    }
  }

  /** The other rooms keep their order: position k holds the k-th room before the removed one and the (k+1)-th after it. */
  lemma RemoveFirstRoomIndex(rs: seq<Room>, id: string, k: int)
    requires 0 <= k < |RemoveFirstRoom(rs, id)|
    ensures RemoveFirstRoom(rs, id)[k] == if k < IndexOfRoom(rs, id) || IndexOfRoom(rs, id) < 0 then rs[k] else rs[k + 1]
  {
    var i := IndexOfRoom(rs, id);
    if 0 <= i {
      SpliceSpec(rs, i);
    }
  }



  /** `find(room => room.GetPlayerByID(id) != null)`: the first room holding a player with that ID, or none. */
  function RoomOf(rs: seq<Room>, id: string): (r: Option<Room>)
    reads rs
    ensures r.None? <==> forall k :: 0 <= k < |rs| ==> rs[k].GetPlayerByID(id).None?
    ensures r.Some? ==> r.value in rs && r.value.GetPlayerByID(id).Some?
    ensures r.Some? ==> exists i :: 0 <= i < |rs| && rs[i] == r.value && forall k :: 0 <= k < i ==> rs[k].GetPlayerByID(id).None?
  {
    if rs == [] then None
    else if rs[0].GetPlayerByID(id).Some? then Some(rs[0])
    else
      var r := RoomOf(rs[1..], id);
      assert forall k :: 0 < k < |rs| ==> rs[k] == rs[1..][k - 1];
      if r.Some? then
        var i :| 0 <= i < |rs[1..]| && rs[1..][i] == r.value && forall k :: 0 <= k < i ==> rs[1..][k].GetPlayerByID(id).None?;
        assert rs[i + 1] == r.value && forall k :: 0 <= k < i + 1 ==> rs[k].GetPlayerByID(id).None?;
        r
      else r
  }

  /** `filter(room => room.count < 2)`: the rooms with fewer than two players counted, in list order. */
  function Available(rs: seq<Room>): (r: seq<Room>)
    reads rs
    ensures |r| <= |rs|
    ensures forall k :: 0 <= k < |r| ==> r[k] in rs && r[k].count < 2
    ensures forall k :: 0 <= k < |rs| && rs[k].count < 2 ==> rs[k] in r
  {
    if rs == [] then []
    else
      var rest := Available(rs[1..]);
      assert forall k :: 0 < k < |rs| ==> rs[k] == rs[1..][k - 1];
      if rs[0].count < 2 then [rs[0]] + rest else rest
  }

  /** The first available room is the first room of the list with fewer than two players counted. */
  lemma {:induction false} AvailableFirst(rs: seq<Room>)
    requires Available(rs) != []
    ensures exists i :: 0 <= i < |rs| && rs[i] == Available(rs)[0] && forall k :: 0 <= k < i ==> rs[k].count >= 2
  {
    if rs[0].count >= 2 {
      AvailableFirst(rs[1..]);
      var i :| 0 <= i < |rs[1..]| && rs[1..][i] == Available(rs[1..])[0] && forall k :: 0 <= k < i ==> rs[1..][k].count >= 2;
      assert forall k :: 0 < k < i + 1 ==> rs[k] == rs[1..][k - 1];
      assert rs[i + 1] == Available(rs)[0];
    } else {
      assert rs[0] == Available(rs)[0];
    }
  }

  /** The registry of the rooms of one type (`RoomList`). */
  class RoomList {
    /** `type`: the type of every room this list creates. */
    const roomType: RoomType
    /** `rooms`, in order of creation. */
    var rooms: seq<Room>

    /** An empty list of rooms of that type. */
    constructor(roomType: RoomType)
      ensures this.roomType == roomType && rooms == []
    {
      this.roomType := roomType;
      rooms := [];
    }

    /**
     * AddRoom, with the generated ID as a parameter: a new room of the
     * list's type holding the given players in order is appended and
     * returned.
     */
    method AddRoom(id: string, ps: seq<Player>) returns (room: Room)
      modifies this
      ensures fresh(room) && rooms == old(rooms) + [room]
      ensures room.id == id && room.roomType == roomType
      ensures room.players == ps && room.count == |ps| && room.CountMatches()
      ensures room.host.None? && room.white.None? && room.black.None? && room.currentTurn.None? && !room.hasStarted
    {
      room := new Room(roomType, id);
      for i := 0 to |ps|
        invariant rooms == old(rooms)
        invariant room.players == ps[..i] && room.count == i
        invariant room.host.None? && room.white.None? && room.black.None? && room.currentTurn.None? && !room.hasStarted
      {
        room.AddPlayer(ps[i]);
        assert ps[..i + 1] == ps[..i] + [ps[i]];
      }
      assert ps[..|ps|] == ps;
      rooms := rooms + [room];
    }

    /** RemoveRoom: remove the first room with that ID; with none, change nothing. */
    method RemoveRoom(id: string)
      modifies this
      ensures rooms == RemoveFirstRoom(old(rooms), id)
    {
      var i := GetRoomIndex(id);
      if i < 0 {
        return;
      }
      rooms := rooms[..i] + rooms[i + 1..];
    }

    /** GetRoomByID: the first room with that ID, or none. */
    function GetRoomByID(id: string): (r: Option<Room>)
      reads this
      ensures r.None? <==> forall k :: 0 <= k < |rooms| ==> rooms[k].id != id
      ensures r.Some? ==> r.value.id == id && r.value in rooms
      ensures r.Some? ==> exists i :: 0 <= i < |rooms| && rooms[i] == r.value && forall k :: 0 <= k < i ==> rooms[k].id != id
    {
      IndexOfRoomSpec(rooms, id);
      var i := IndexOfRoom(rooms, id);
      if i < 0 then None else Some(rooms[i])
    }

    /** GetRoomIndex: the position of the first room with that ID; -1 exactly when there is none. */
    function GetRoomIndex(id: string): (i: int)
      reads this
      ensures -1 <= i < |rooms|
      ensures i == -1 <==> forall k :: 0 <= k < |rooms| ==> rooms[k].id != id
      ensures 0 <= i ==> rooms[i].id == id && forall k :: 0 <= k < i ==> rooms[k].id != id
    {
      IndexOfRoomSpec(rooms, id);
      IndexOfRoom(rooms, id)
    }

    /** GetPlayerRoom: the first room holding a player with that ID, or none. */
    function GetPlayerRoom(id: string): (r: Option<Room>)
      reads this, rooms
      ensures r.None? <==> forall k :: 0 <= k < |rooms| ==> rooms[k].GetPlayerByID(id).None?
      ensures r.Some? ==> r.value in rooms && r.value.GetPlayerByID(id).Some?
    {
      RoomOf(rooms, id)
    }

    /** FindAvailableRooms: the rooms with fewer than two players, in list order. */
    function FindAvailableRooms(): (r: seq<Room>)
      reads this, rooms
      ensures forall k :: 0 <= k < |r| ==> r[k] in rooms && r[k].count < 2
      ensures forall k :: 0 <= k < |rooms| && rooms[k].count < 2 ==> rooms[k] in r
    {
      Available(rooms)
    }
  }
}
