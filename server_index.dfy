/**
 * The server's event handlers (server/index.js): one player list and two
 * room lists (public matchmaking and custom rooms), and a handler per
 * socket event. Every `socket.emit(e)` and `socket.to(id).emit(e)` is
 * appended to `outbox` with the socket ID it goes to; the random room IDs
 * and coin flips are parameters. A handler that reads a field of null or
 * undefined throws in the source; the model ends it at that point, keeping
 * what it changed before.
 */
module ServerIndex {
  import opened Wrappers
  import opened ServerPlayers
  import opened Rooms

  // ---------------------------------------------------------------------
  // FilterClientInput

  /** `s.replace(/c/g, rep)`: every occurrence of `c` replaced by `rep`. */
  function ReplaceAll(s: string, c: char, rep: string): string {
    if s == [] then [] else (if s[0] == c then rep else [s[0]]) + ReplaceAll(s[1..], c, rep)
  }

  /** Replacing distributes over concatenation. */
  lemma {:induction false} ReplaceAllAppend(a: string, b: string, c: char, rep: string)
    ensures ReplaceAll(a + b, c, rep) == ReplaceAll(a, c, rep) + ReplaceAll(b, c, rep)
  {
    if a == [] {
      assert a + b == b;
    } else {
      assert (a + b)[0] == a[0] && (a + b)[1..] == a[1..] + b;
      ReplaceAllAppend(a[1..], b, c, rep);
    }
  }

  /** FilterClientInput: `&` is escaped first, then `<`, then `"`. */
  function FilterClientInput(s: string): string {
    ReplaceAll(ReplaceAll(ReplaceAll(s, '&', "&amp;"), '<', "&lt;"), '"', "&quot;")
  }

  /** The HTML entity a character is written as: `&amp;`, `&lt;`, `&quot;`, or the character itself. */
  function Escape(c: char): string {
    if c == '&' then "&amp;" else if c == '<' then "&lt;" else if c == '"' then "&quot;" else [c]
  }

  /** Each character escaped on its own, in order. */
  function EscapeEach(s: string): string {
    if s == [] then [] else Escape(s[0]) + EscapeEach(s[1..])
  }

  /** Replacing in one character. */
  lemma ReplaceAllOne(x: char, c: char, rep: string)
    ensures ReplaceAll([x], c, rep) == if x == c then rep else [x]
  {
    assert [x][1..] == [];
  }

  /** Text without `c` is left as it is. */
  lemma {:induction false} ReplaceAllAbsent(s: string, c: char, rep: string)
    requires c !in s
    ensures ReplaceAll(s, c, rep) == s
  {
    if s != [] {
      assert c !in s[1..];
      ReplaceAllAbsent(s[1..], c, rep);
      assert s == [s[0]] + s[1..];
    }
  }

  /** On one character the three replacements give its entity. */
  lemma FilterChar(c: char)
    ensures FilterClientInput([c]) == Escape(c)
  {
    ReplaceAllOne(c, '&', "&amp;");
    if c == '&' {
      ReplaceAllAbsent("&amp;", '<', "&lt;");
      ReplaceAllAbsent("&amp;", '"', "&quot;");
    } else if c == '<' {
      ReplaceAllOne(c, '<', "&lt;");
      ReplaceAllAbsent("&lt;", '"', "&quot;");
    } else {
      ReplaceAllOne(c, '<', "&lt;");
      ReplaceAllOne(c, '"', "&quot;");
    }
  }

  /** The three chained replacements escape each character of the input on its own: escaping `&` first keeps the later entities intact. */
  lemma {:induction false} FilterIsEscapeEach(s: string)
    ensures FilterClientInput(s) == EscapeEach(s)
  {
    if s != [] {
      var c := [s[0]];
      assert s == c + s[1..];
      ReplaceAllAppend(c, s[1..], '&', "&amp;");
      var a := ReplaceAll(c, '&', "&amp;");
      var r1 := ReplaceAll(s[1..], '&', "&amp;");
      ReplaceAllAppend(a, r1, '<', "&lt;");
      var b := ReplaceAll(a, '<', "&lt;");
      var r2 := ReplaceAll(r1, '<', "&lt;");
      ReplaceAllAppend(b, r2, '"', "&quot;");
      FilterChar(s[0]);
      FilterIsEscapeEach(s[1..]);
    }
  }

  /** No `<` and no `"` survive filtering. */
  lemma {:induction false} FilterNoMarkup(s: string)
    ensures '<' !in FilterClientInput(s) && '"' !in FilterClientInput(s)
  {
    FilterIsEscapeEach(s);
    EscapeEachNoMarkup(s);
  }

  lemma {:induction false} EscapeEachNoMarkup(s: string)
    ensures '<' !in EscapeEach(s) && '"' !in EscapeEach(s)
  {
    if s != [] {
      EscapeEachNoMarkup(s[1..]);
      assert '<' !in Escape(s[0]) && '"' !in Escape(s[0]);
    }
  }

  /** Text without `&`, `<` or `"` (which may hold `>`) passes through unchanged. */
  lemma {:induction false} FilterKeepsPlain(s: string)
    requires forall k :: 0 <= k < |s| ==> s[k] != '&' && s[k] != '<' && s[k] != '"'
    ensures FilterClientInput(s) == s
  {
    FilterIsEscapeEach(s);
    EscapeEachPlain(s);
  }

  lemma {:induction false} EscapeEachPlain(s: string)
    requires forall k :: 0 <= k < |s| ==> s[k] != '&' && s[k] != '<' && s[k] != '"'
    ensures EscapeEach(s) == s
  {
    if s != [] {
      EscapeEachPlain(s[1..]);
      assert s == [s[0]] + s[1..];
    }
  }

  /** Reading the three entities back: `&amp;`, `&lt;` and `&quot;` become `&`, `<` and `"`. */
  function Unescape(s: string): string
    decreases |s|
  {
    if s == [] then []
    else if |s| >= 5 && s[..5] == "&amp;" then "&" + Unescape(s[5..])
    else if |s| >= 4 && s[..4] == "&lt;" then "<" + Unescape(s[4..])
    else if |s| >= 6 && s[..6] == "&quot;" then "\"" + Unescape(s[6..])
    else [s[0]] + Unescape(s[1..])
  }

  /** Filtering loses nothing: unescaping the filtered text gives back the input. */
  lemma {:induction false} UnescapeFilter(s: string)
    ensures Unescape(FilterClientInput(s)) == s
  {
    FilterIsEscapeEach(s);
    UnescapeEscapeEach(s);
  }

  /** Unescaping reads one entity, or one plain character, off the front. */
  lemma UnescapeStep(c: char, t: string)
    ensures Unescape(Escape(c) + t) == [c] + Unescape(t)
  {
    var e := Escape(c) + t;
    if c == '&' {
      assert e[..5] == "&amp;" && e[5..] == t;
    } else if c == '<' {
      assert !(|e| >= 5 && e[..5] == "&amp;") by {
        if |e| >= 5 { assert e[..5][1] == 'l'; }
      }
      assert e[..4] == "&lt;" && e[4..] == t;
    } else if c == '"' {
      assert !(|e| >= 5 && e[..5] == "&amp;") && !(|e| >= 4 && e[..4] == "&lt;") by {
        assert e[..5][1] == 'q' && e[..4][1] == 'q';
      }
      assert e[..6] == "&quot;" && e[6..] == t;
    } else {
      assert !(|e| >= 5 && e[..5] == "&amp;") && !(|e| >= 4 && e[..4] == "&lt;") && !(|e| >= 6 && e[..6] == "&quot;") by {
        if |e| >= 4 { assert e[..4][0] == c; }
        if |e| >= 5 { assert e[..5][0] == c; }
        if |e| >= 6 { assert e[..6][0] == c; }
      }
      assert e[0] == c && e[1..] == t;
    }
  }

  lemma {:induction false} UnescapeEscapeEach(s: string)
    ensures Unescape(EscapeEach(s)) == s
  {
    if s != [] {
      UnescapeStep(s[0], EscapeEach(s[1..]));
      UnescapeEscapeEach(s[1..]);
      assert s == [s[0]] + s[1..];
    }
  }

  // ---------------------------------------------------------------------
  // Events

  /** A `game:move` payload as the client sends it: `{from, to}`. */
  datatype MoveData = MoveData(from: string, to: string)

  /** What a client's `game:move` carries: one move, or an array of them. */
  datatype MovePayload = OneMove(move: MoveData) | MoveArray(moves: seq<MoveData>)

  /** A `game:promote_piece` payload: `{at, type}`. */
  datatype PromoteData = PromoteData(at: string, pieceType: string)

  /** A player object as the client receives it. */
  datatype PlayerData = PlayerData(id: string, username: Option<string>)

  /** The events the server sends. */
  datatype ServerEvent =
    | GameStart(side: Option<Side>)
    | GameMove(move: MoveData)
    | GamePromotePiece(data: PromoteData)
    | GameWin
    | GameLose
    | RoomPlayerJoin(player: PlayerData)
    | RoomID(roomId: string)
    | RoomJoin
    | RoomRemove
    | RoomPlayerLeave(playerId: string)

  /** One emit: the event and the socket ID it is sent to. */
  datatype Emit = Emit(to: string, event: ServerEvent)

  /** The `game:move` emits relaying an array, one per element in order. */
  function RelayEach(to: string, ms: seq<MoveData>): (r: seq<Emit>)
    ensures |r| == |ms|
    ensures forall k :: 0 <= k < |ms| ==> r[k] == Emit(to, GameMove(ms[k]))
  {
    if ms == [] then [] else RelayEach(to, ms[..|ms| - 1]) + [Emit(to, GameMove(ms[|ms| - 1]))]
  }

  /** The `game:move` emits relaying a payload: a single move once, an array element by element. */
  function Relayed(to: string, p: MovePayload): (r: seq<Emit>)
    ensures p.OneMove? ==> r == [Emit(to, GameMove(p.move))]
    ensures p.MoveArray? ==> |r| == |p.moves| && forall k :: 0 <= k < |r| ==> r[k] == Emit(to, GameMove(p.moves[k]))
  {
    match p
    case OneMove(m) => [Emit(to, GameMove(m))]
    case MoveArray(ms) => RelayEach(to, ms)
  }

  /** The serialised form of a player. */
  function DataOf(p: Player): PlayerData
    reads p
  {
    PlayerData(p.id, p.username)
  }

  /** Every room of the list counts its players correctly. */
  predicate AllCounted(rs: seq<Room>)
    reads rs
  {
    forall k :: 0 <= k < |rs| ==> rs[k].CountMatches()
  }

  /** Every room of the list has a host (custom rooms get theirs when they are created). */
  predicate AllHosted(rs: seq<Room>)
    reads rs
  {
    forall k :: 0 <= k < |rs| ==> rs[k].host.Some?
  }

  /** Every room of the list is of type t (RoomList.AddRoom gives a room the type of its list). */
  predicate AllTyped(rs: seq<Room>, t: RoomType) {
    forall k :: 0 <= k < |rs| ==> rs[k].roomType == t
  }

  /** Removing a room by ID keeps a list counted, and hosted and typed when it was: what is left are rooms of the list. */
  lemma RemoveKeepsCounted(rs: seq<Room>, id: string, t: RoomType)
    requires AllCounted(rs)
    ensures AllCounted(RemoveFirstRoom(rs, id))
    ensures AllHosted(rs) ==> AllHosted(RemoveFirstRoom(rs, id))
    ensures AllTyped(rs, t) ==> AllTyped(RemoveFirstRoom(rs, id), t)
  {
    forall k | 0 <= k < |RemoveFirstRoom(rs, id)|
      ensures RemoveFirstRoom(rs, id)[k].CountMatches()
      ensures AllHosted(rs) ==> RemoveFirstRoom(rs, id)[k].host.Some?
      ensures AllTyped(rs, t) ==> RemoveFirstRoom(rs, id)[k].roomType == t
    {
      RemoveFirstRoomIndex(rs, id, k);
    }
  }

  /** What is left after removing a room by ID are rooms of the list. */
  lemma RemoveFirstRoomSub(rs: seq<Room>, id: string)
    ensures forall r :: r in RemoveFirstRoom(rs, id) ==> r in rs
  {
    RemoveFirstRoomSpec(rs, id);
    forall r | r in RemoveFirstRoom(rs, id)
      ensures r in rs
    {
      assert r in multiset(RemoveFirstRoom(rs, id));
    }
  }

  /** Appending emits in two steps appends them in one. */
  lemma AppendAssocEmits(a: seq<Emit>, b: seq<Emit>, c: seq<Emit>)
    ensures (a + b) + c == a + (b + c)
  {
  }

  /** `room.host.ID == s`, for a room with a host. */
  predicate HostIs(room: Room, s: string)
    reads room
  {
    room.host.Some? && room.host.value.id == s
  }

  /**
   * The emits of OnLeaveCustomRoom when `s` leaves `room`: `room:remove` to
   * the sender, then to the other player when the host leaves, or
   * `room:player_leave` to the host when a guest leaves. Without a host the
   * handler throws right after the first emit.
   */
  function LeaveEmits(room: Room, s: string): seq<Emit>
    reads room
  {
    [Emit(s, RoomRemove)] +
    if room.host.None? then []
    else if room.host.value.id == s then
      (if room.GetOtherPlayer(s).Some? then [Emit(room.GetOtherPlayer(s).value.id, RoomRemove)] else [])
    else [Emit(room.host.value.id, RoomPlayerLeave(s))]
  }

  // ---------------------------------------------------------------------
  // The server

  /** The module-level state of server/index.js and its handlers. */
  class Server {
    /** `player_list`. */
    const playerList: PlayerList
    /** `public_rooms`, of type 'public'. */
    const publicRooms: RoomList
    /** `custom_rooms`, of type 'custom'. */
    const customRooms: RoomList
    /** Every emit so far, oldest first. */
    var outbox: seq<Emit>

    /**
     * The two room lists are distinct and of their types, every room is of
     * the type of its list and counts its players correctly, and every
     * custom room has a host (OnCreateCustomRoom sets it right after creating
     * the room, and nothing clears it).
     */
    predicate Valid()
      reads publicRooms, customRooms, publicRooms.rooms, customRooms.rooms
    {
      publicRooms != customRooms && publicRooms.roomType == Public && customRooms.roomType == Custom &&
      AllCounted(publicRooms.rooms) && AllCounted(customRooms.rooms) && AllHosted(customRooms.rooms) &&
      AllTyped(publicRooms.rooms, Public) && AllTyped(customRooms.rooms, Custom)
    }

    /** The start of the server: no players, no rooms, nothing sent. */
    constructor()
      ensures Valid() && fresh(playerList) && fresh(publicRooms) && fresh(customRooms)
      ensures playerList.players == [] && publicRooms.rooms == [] && customRooms.rooms == [] && outbox == []
    {
      playerList := new PlayerList();
      publicRooms := new RoomList(Public);
      customRooms := new RoomList(Custom);
      outbox := [];
    }

    /** GetPlayerRoomType: the public list when a public room holds the player, else the custom list when a custom room does, else none. */
    function GetPlayerRoomType(id: string): (r: Option<RoomList>)
      reads publicRooms, customRooms, publicRooms.rooms, customRooms.rooms
      ensures publicRooms.GetPlayerRoom(id).Some? ==> r == Some(publicRooms)
      ensures publicRooms.GetPlayerRoom(id).None? ==> (r.Some? <==> customRooms.GetPlayerRoom(id).Some?)
      ensures r.Some? ==> (r.value == publicRooms || r.value == customRooms) && r.value.GetPlayerRoom(id).Some?
    {
      if publicRooms.GetPlayerRoom(id).Some? then Some(publicRooms)
      else if customRooms.GetPlayerRoom(id).Some? then Some(customRooms)
      else None
    }

    /** The room `GetPlayerRoomType(id).GetPlayerRoom(id)` finds: the first public room holding the player, else the first custom room. */
    function PlayerRoom(id: string): (r: Option<Room>)
      reads publicRooms, customRooms, publicRooms.rooms, customRooms.rooms
      ensures r.Some? ==> (r.value in publicRooms.rooms || r.value in customRooms.rooms) && r.value.GetPlayerByID(id).Some?
    {
      var t := GetPlayerRoomType(id);
      if t.None? then None else t.value.GetPlayerRoom(id)
    }

    /** The connection listener: a new player with the socket ID joins the player list. */
    method OnNewConnection(s: string)
      modifies playerList
      ensures |playerList.players| == |old(playerList.players)| + 1
      ensures playerList.players[..|old(playerList.players)|] == old(playerList.players)
      ensures fresh(playerList.players[|old(playerList.players)|])
      ensures playerList.players[|old(playerList.players)|].id == s && playerList.players[|old(playerList.players)|].username.None?
    {
      playerList.AddPlayer(s);
    }

    /** OnGetUsername: the sender's player, if registered, gets the filtered username. */
    method OnGetUsername(s: string, username: string)
      modifies playerList.players
      ensures old(playerList.GetPlayerByID(s)).Some? ==> old(playerList.GetPlayerByID(s)).value.username == Some(FilterClientInput(username))
      ensures forall k :: 0 <= k < |playerList.players| && Some(playerList.players[k]) != old(playerList.GetPlayerByID(s)) ==>
                unchanged(playerList.players[k])
    {
      var player := playerList.GetPlayerByID(s);
      if player.None? {
        return;
      }
      player.value.SetUsername(FilterClientInput(username));
    }

    /** The emits of a relayed move, appended in order. */
    method Relay(to: string, coords: MovePayload)
      modifies this
      ensures outbox == old(outbox) + Relayed(to, coords)
    {
      match coords {
        case OneMove(m) =>
          outbox := outbox + [Emit(to, GameMove(m))];
        case MoveArray(ms) =>
          for i := 0 to |ms|
            invariant outbox == old(outbox) + RelayEach(to, ms[..i])
          {
            assert ms[..i + 1][..i] == ms[..i];
            outbox := outbox + [Emit(to, GameMove(ms[i]))];
          }
          assert ms[..|ms|] == ms;
      }
    }

    /**
     * OnGameMove from `room` on: only when it is the sender's turn and the
     * room holds another player, the payload is relayed to that player and
     * the turn switches once; otherwise nothing changes.
     */
    method MoveInRoom(room: Room, s: string, coords: MovePayload)
      requires Valid() && (room in publicRooms.rooms || room in customRooms.rooms)
      modifies this, room
      ensures Valid()
      ensures if old(room.currentTurn).Some? && old(room.currentTurn).value.id == s && old(room.GetOtherPlayer(s)).Some?
              then
                outbox == old(outbox) + Relayed(old(room.GetOtherPlayer(s)).value.id, coords) &&
                room.currentTurn == Switched(old(room.currentTurn), room.white, room.black)
              else
                outbox == old(outbox) && unchanged(room)
      ensures room.players == old(room.players) && room.count == old(room.count) && room.host == old(room.host)
      ensures room.white == old(room.white) && room.black == old(room.black) && room.hasStarted == old(room.hasStarted)
    {
      var turn := room.currentTurn;
      if turn.None? || turn.value.id != s {
        return;
      }
      var other := room.GetOtherPlayer(s);
      if other.None? {
        return;
      }
      Relay(other.value.id, coords);
      room.SwitchTurn();
    }

    /**
     * OnGameMove: in the sender's room, see MoveInRoom; a sender in no room
     * changes nothing (a room whose turn is not set makes the source throw,
     * which also changes nothing).
     */
    method OnGameMove(s: string, coords: MovePayload)
      requires Valid()
      modifies this, publicRooms.rooms, customRooms.rooms
      ensures Valid()
      ensures var room := old(PlayerRoom(s));
              if room.Some? && old(room.value.currentTurn).Some? && old(room.value.currentTurn).value.id == s &&
                 old(room.value.GetOtherPlayer(s)).Some?
              then
                outbox == old(outbox) + Relayed(old(room.value.GetOtherPlayer(s)).value.id, coords) &&
                room.value.currentTurn == Switched(old(room.value.currentTurn), room.value.white, room.value.black) &&
                room.value.players == old(room.value.players) && room.value.count == old(room.value.count) &&
                room.value.host == old(room.value.host) && room.value.white == old(room.value.white) &&
                room.value.black == old(room.value.black) && room.value.hasStarted == old(room.value.hasStarted)
              else
                outbox == old(outbox) && (room.Some? ==> unchanged(room.value))
      ensures forall k :: 0 <= k < |old(publicRooms.rooms)| && Some(old(publicRooms.rooms)[k]) != old(PlayerRoom(s)) ==>
                unchanged(old(publicRooms.rooms)[k])
      ensures forall k :: 0 <= k < |old(customRooms.rooms)| && Some(old(customRooms.rooms)[k]) != old(PlayerRoom(s)) ==>
                unchanged(old(customRooms.rooms)[k])
    {
      var room := PlayerRoom(s);
      if room.Some? {
        MoveInRoom(room.value, s, coords);
      }
    }

    /** `list.RemoveRoom(id)` on one of the two lists: the first room with that ID leaves it. */
    method RemoveRoomFrom(list: RoomList, id: string)
      requires Valid() && (list == publicRooms || list == customRooms)
      modifies list
      ensures Valid()
      ensures list.rooms == RemoveFirstRoom(old(list.rooms), id)
    {
      RemoveKeepsCounted(list.rooms, id, list.roomType);
      list.RemoveRoom(id);
    }

    /**
     * OnGamePromotePiece: a registered sender in a room with another player
     * has the promotion relayed to that player; there is no turn check.
     */
    method OnGamePromotePiece(s: string, data: PromoteData)
      modifies this
      ensures var room := old(PlayerRoom(s));
              var other := if room.Some? then old(room.value.GetOtherPlayer(s)) else None;
              if old(playerList.GetPlayerByID(s)).Some? && other.Some?
              then outbox == old(outbox) + [Emit(other.value.id, GamePromotePiece(data))]
              else outbox == old(outbox)
    {
      var player := playerList.GetPlayerByID(s);
      if player.None? {
        return;
      }
      var room := PlayerRoom(player.value.id);
      if room.None? {
        return;
      }
      var other := room.value.GetOtherPlayer(player.value.id);
      if other.None? {
        return;
      }
      outbox := outbox + [Emit(other.value.id, GamePromotePiece(data))];
    }

    /**
     * OnWinGame: a registered sender in a room with another player is told
     * it won, the other player that it lost, and the room (the first with its
     * ID) leaves its list; otherwise nothing changes.
     */
    method OnWinGame(s: string)
      requires Valid()
      modifies this, publicRooms, customRooms
      ensures Valid()
      ensures var t := old(GetPlayerRoomType(s));
              var room := old(PlayerRoom(s));
              var other := if room.Some? then old(room.value.GetOtherPlayer(s)) else None;
              if old(playerList.GetPlayerByID(s)).Some? && other.Some?
              then
                outbox == old(outbox) + [Emit(s, GameWin), Emit(other.value.id, GameLose)] &&
                publicRooms.rooms == (if t == Some(publicRooms) then RemoveFirstRoom(old(publicRooms.rooms), room.value.id) else old(publicRooms.rooms)) &&
                customRooms.rooms == (if t == Some(customRooms) then RemoveFirstRoom(old(customRooms.rooms), room.value.id) else old(customRooms.rooms))
              else
                outbox == old(outbox) && publicRooms.rooms == old(publicRooms.rooms) && customRooms.rooms == old(customRooms.rooms)
    {
      var player := playerList.GetPlayerByID(s);
      if player.None? {
        return;
      }
      var roomType := GetPlayerRoomType(player.value.id);
      if roomType.None? {
        return;
      }
      var room := roomType.value.GetPlayerRoom(player.value.id);
      var other := room.value.GetOtherPlayer(player.value.id);
      if other.None? {
        return;
      }
      outbox := outbox + [Emit(s, GameWin), Emit(other.value.id, GameLose)];
      RemoveRoomFrom(roomType.value, room.value.id);
    }

    /**
     * OnCreateCustomRoom: a registered sender gets a new custom room (ID
     * `newRoomId`) holding only itself as host, and is sent its own player
     * data and then the room ID.
     */
    method OnCreateCustomRoom(s: string, newRoomId: string)
      requires Valid()
      modifies this, customRooms
      ensures Valid()
      ensures var p := old(playerList.GetPlayerByID(s));
              if p.Some? then
                |customRooms.rooms| == |old(customRooms.rooms)| + 1 &&
                customRooms.rooms[..|old(customRooms.rooms)|] == old(customRooms.rooms) &&
                var room := customRooms.rooms[|old(customRooms.rooms)|];
                fresh(room) && room.id == newRoomId && room.roomType == Custom &&
                room.players == [p.value] && room.count == 1 && room.host == p &&
                room.white.None? && room.black.None? && room.currentTurn.None? && !room.hasStarted &&
                outbox == old(outbox) + [Emit(s, RoomPlayerJoin(old(DataOf(p.value)))), Emit(s, RoomID(newRoomId))]
              else
                outbox == old(outbox) && customRooms.rooms == old(customRooms.rooms)
    {
      var player := playerList.GetPlayerByID(s);
      if player.None? {
        return;
      }
      var room := customRooms.AddRoom(newRoomId, [player.value]);
      room.SetHost(player.value);
      outbox := outbox + [Emit(s, RoomPlayerJoin(DataOf(player.value))), Emit(s, RoomID(room.id))];
    }

    /** `room.AddPlayer(p)` on a room of either list: the server stays valid. */
    method AddToRoom(room: Room, p: Player)
      requires Valid() && (room in publicRooms.rooms || room in customRooms.rooms)
      modifies room
      ensures Valid()
      ensures room.players == old(room.players) + [p] && room.count == old(room.count) + 1
      ensures room.host == old(room.host) && room.white == old(room.white) && room.black == old(room.black)
      ensures room.currentTurn == old(room.currentTurn) && room.hasStarted == old(room.hasStarted)
    {
      room.AddPlayer(p);
    }

    /** `room.RemovePlayer(id)` on a room of either list: the server stays valid. */
    method RemoveFromRoom(room: Room, id: string)
      requires Valid() && (room in publicRooms.rooms || room in customRooms.rooms)
      modifies room
      ensures Valid()
      ensures room.players == RemoveFirstID(old(room.players), id)
      ensures room.host == old(room.host) && room.white == old(room.white) && room.black == old(room.black)
      ensures room.currentTurn == old(room.currentTurn) && room.hasStarted == old(room.hasStarted)
    {
      room.RemovePlayer(id);
    }

    /** `player_list.RemovePlayer(id)`: the server stays valid. */
    method RemoveFromPlayerList(id: string)
      requires Valid()
      modifies playerList
      ensures Valid()
      ensures playerList.players == RemoveFirstID(old(playerList.players), id)
    {
      playerList.RemovePlayer(id);
    }

    /** `room.SetRandomSides(); room.has_started = true` on a room of either list: the server stays valid. */
    method StartRoom(room: Room, coinIsZero: bool)
      requires Valid() && (room in publicRooms.rooms || room in customRooms.rooms)
      modifies room
      ensures Valid()
      ensures room.white == At(room.players, if coinIsZero then 0 else 1)
      ensures room.black == At(room.players, if coinIsZero then 1 else 0)
      ensures |room.players| >= 2 ==>
                (room.white == Some(room.players[0]) && room.black == Some(room.players[1])) ||
                (room.white == Some(room.players[1]) && room.black == Some(room.players[0]))
      ensures room.currentTurn == room.white && room.hasStarted
      ensures room.players == old(room.players) && room.count == old(room.count) && room.host == old(room.host)
    {
      room.SetRandomSides(coinIsZero);
      room.hasStarted := true;
    }

    /**
     * OnJoinCustomRoom: a registered sender joins the custom room with the
     * filtered ID when it holds fewer than two players; then the host is
     * sent the new player, and the sender the host, itself, the room ID and
     * `room:join`. `socket.to(host)` never reaches the sender itself, so a
     * host joining its own room is not sent the first of these.
     */
    method OnJoinCustomRoom(s: string, roomId: string)
      requires Valid()
      modifies this, customRooms.rooms
      ensures Valid()
      ensures var p := old(playerList.GetPlayerByID(s));
              var room := old(customRooms.GetRoomByID(FilterClientInput(roomId)));
              if p.Some? && room.Some? && old(room.value.count) < 2 then
                var host := old(room.value.host.value);
                room.value.players == old(room.value.players) + [p.value] && room.value.count == old(room.value.count) + 1 &&
                room.value.host == Some(host) && room.value.hasStarted == old(room.value.hasStarted) &&
                room.value.white == old(room.value.white) && room.value.black == old(room.value.black) &&
                room.value.currentTurn == old(room.value.currentTurn) &&
                outbox == old(outbox) +
                  (if host.id == s then [] else [Emit(host.id, RoomPlayerJoin(old(DataOf(p.value))))]) +
                  [Emit(s, RoomPlayerJoin(old(DataOf(host)))), Emit(s, RoomPlayerJoin(old(DataOf(p.value)))),
                   Emit(s, RoomID(room.value.id)), Emit(s, RoomJoin)]
              else
                outbox == old(outbox) && (room.Some? ==> unchanged(room.value))
      ensures forall k :: 0 <= k < |customRooms.rooms| && Some(customRooms.rooms[k]) != old(customRooms.GetRoomByID(FilterClientInput(roomId))) ==>
                unchanged(customRooms.rooms[k])
    {
      var filteredID := FilterClientInput(roomId);
      var player := playerList.GetPlayerByID(s);
      if player.None? {
        return;
      }
      var room := customRooms.GetRoomByID(filteredID);
      if room.None? || room.value.count >= 2 {
        return;
      }
      AddToRoom(room.value, player.value);
      var host := room.value.host.value;
      if host.id != s {
        outbox := outbox + [Emit(host.id, RoomPlayerJoin(DataOf(player.value)))];
      }
      outbox := outbox + [Emit(s, RoomPlayerJoin(DataOf(host))), Emit(s, RoomPlayerJoin(DataOf(player.value))),
                          Emit(s, RoomID(room.value.id)), Emit(s, RoomJoin)];
    }

    /**
     * OnLeaveCustomRoom from the sender's custom room on: the sender is sent
     * `room:remove`. A host leaving also sends it to the other player, if
     * any, and the room leaves the list; a guest leaving is removed from the
     * room and the host is told.
     */
    method LeaveRoom(room: Room, s: string)
      requires Valid() && room in customRooms.rooms
      modifies this, customRooms, room
      ensures Valid()
      ensures var host := old(room.host.value);
              if host.id == s then
                outbox == old(outbox) + [Emit(s, RoomRemove)] +
                  (if old(room.GetOtherPlayer(s)).Some? then [Emit(old(room.GetOtherPlayer(s)).value.id, RoomRemove)] else []) &&
                customRooms.rooms == RemoveFirstRoom(old(customRooms.rooms), room.id) && unchanged(room)
              else
                outbox == old(outbox) + [Emit(s, RoomRemove), Emit(host.id, RoomPlayerLeave(s))] &&
                customRooms.rooms == old(customRooms.rooms) &&
                room.players == RemoveFirstID(old(room.players), s) && room.host == Some(host) &&
                room.white == old(room.white) && room.black == old(room.black) &&
                room.currentTurn == old(room.currentTurn) && room.hasStarted == old(room.hasStarted)
      ensures outbox == old(outbox) + old(LeaveEmits(room, s))
    {
      outbox := outbox + [Emit(s, RoomRemove)];
      var host := room.host.value;
      if host.id == s {
        var other := room.GetOtherPlayer(s);
        if other.Some? {
          outbox := outbox + [Emit(other.value.id, RoomRemove)];
        }
        RemoveRoomFrom(customRooms, room.id);
        return;
      }
      RemoveFromRoom(room, s);
      outbox := outbox + [Emit(host.id, RoomPlayerLeave(s))];
    }

    /** The room OnLeaveCustomRoom leaves: the registered sender's first custom room. */
    function LeaveTarget(s: string): Option<Room>
      reads playerList, customRooms, customRooms.rooms
    {
      if playerList.GetPlayerByID(s).None? then None else customRooms.GetPlayerRoom(s)
    }

    /**
     * OnLeaveCustomRoom: for a registered sender in a custom room, see
     * LeaveRoom; otherwise nothing changes. No room but the one left changes.
     */
    method OnLeaveCustomRoom(s: string)
      requires Valid()
      modifies this, customRooms, if LeaveTarget(s).Some? then {LeaveTarget(s).value} else {}
      ensures Valid() && unchanged(publicRooms)
      ensures var room := old(LeaveTarget(s));
              outbox == old(outbox) + (if room.Some? then old(LeaveEmits(room.value, s)) else []) &&
              customRooms.rooms == (if room.Some? && old(HostIs(room.value, s)) then RemoveFirstRoom(old(customRooms.rooms), room.value.id)
                                    else old(customRooms.rooms))
      ensures old(LeaveTarget(s)).Some? ==>
                var room := old(LeaveTarget(s)).value;
                if old(HostIs(room, s)) then unchanged(room)
                else
                  room.players == RemoveFirstID(old(room.players), s) && room.host == old(room.host) &&
                  room.white == old(room.white) && room.black == old(room.black) &&
                  room.currentTurn == old(room.currentTurn) && room.hasStarted == old(room.hasStarted)
    {
      var player := playerList.GetPlayerByID(s);
      if player.None? {
        return;
      }
      var room := customRooms.GetPlayerRoom(player.value.id);
      if room.None? {
        return;
      }
      LeaveRoom(room.value, player.value.id);
    }

    /**
     * OnStartCustomGame from a room with at least two players on: the sides
     * are set and the game starts; the sender is told its side and, when the
     * room holds a player with another ID, that player is told its own
     * (without one the source throws after the first emit). Two players with
     * different IDs are told opposite sides.
     */
    method StartInRoom(r: Room, s: string, coinIsZero: bool)
      requires Valid() && r in customRooms.rooms && r.count >= 2
      modifies this, r
      ensures Valid()
      ensures r.players == old(r.players) && |r.players| >= 2 && r.count == old(r.count) && r.host == old(r.host)
      ensures r.white == At(r.players, if coinIsZero then 0 else 1) && r.black == At(r.players, if coinIsZero then 1 else 0)
      ensures r.currentTurn == r.white && r.hasStarted
      ensures outbox == old(outbox) + [Emit(s, GameStart(r.GetPlayerSide(s)))] +
                (if r.GetOtherPlayer(s).Some? then [Emit(r.GetOtherPlayer(s).value.id, GameStart(r.GetPlayerSide(r.GetOtherPlayer(s).value.id)))] else [])
      ensures |r.players| == 2 && r.GetPlayerByID(s).Some? && r.GetOtherPlayer(s).Some? ==>
                r.GetPlayerSide(s).Some? && r.GetPlayerSide(s) != r.GetPlayerSide(r.GetOtherPlayer(s).value.id)
    {
      var other := r.GetOtherPlayer(s);
      StartRoom(r, coinIsZero);
      outbox := outbox + [Emit(s, GameStart(r.GetPlayerSide(s)))];
      if other.None? {
        return;
      }
      if |r.players| == 2 && r.GetPlayerByID(s).Some? {
        OppositeSides(r, s, other.value.id);
      }
      outbox := outbox + [Emit(other.value.id, GameStart(r.GetPlayerSide(other.value.id)))];
    }

    /** OnStartCustomGame: for a registered sender in a custom room with at least two players, see StartInRoom; otherwise nothing changes. */
    method OnStartCustomGame(s: string, coinIsZero: bool)
      requires Valid()
      modifies this, customRooms.rooms
      ensures Valid()
      ensures var room := old(customRooms.GetPlayerRoom(s));
              if old(playerList.GetPlayerByID(s)).Some? && room.Some? && old(room.value.count) >= 2 then
                var r := room.value;
                r.players == old(r.players) && |r.players| >= 2 && r.count == old(r.count) && r.host == old(r.host) &&
                r.white == At(r.players, if coinIsZero then 0 else 1) && r.black == At(r.players, if coinIsZero then 1 else 0) &&
                r.currentTurn == r.white && r.hasStarted &&
                outbox == old(outbox) + [Emit(s, GameStart(r.GetPlayerSide(s)))] +
                  (if r.GetOtherPlayer(s).Some? then [Emit(r.GetOtherPlayer(s).value.id, GameStart(r.GetPlayerSide(r.GetOtherPlayer(s).value.id)))] else []) &&
                (|r.players| == 2 && r.GetOtherPlayer(s).Some? ==>
                   r.GetPlayerSide(s).Some? && r.GetPlayerSide(s) != r.GetPlayerSide(r.GetOtherPlayer(s).value.id))
              else
                outbox == old(outbox) && (room.Some? ==> unchanged(room.value))
      ensures forall k :: 0 <= k < |customRooms.rooms| && Some(customRooms.rooms[k]) != old(customRooms.GetPlayerRoom(s)) ==>
                unchanged(customRooms.rooms[k])
    {
      var player := playerList.GetPlayerByID(s);
      if player.None? {
        return;
      }
      var room := customRooms.GetPlayerRoom(player.value.id);
      if room.None? || room.value.count < 2 {
        return;
      }
      StartInRoom(room.value, player.value.id, coinIsZero);
    }

    /** The public room a search by `s` joins: the first available one, when the sender is registered. */
    function SearchedRoom(s: string): (r: Option<Room>)
      reads playerList, publicRooms, publicRooms.rooms
      ensures r.Some? ==> r.value in publicRooms.rooms && r.value.count < 2
      ensures r.None? <==> playerList.GetPlayerByID(s).None? || forall k :: 0 <= k < |publicRooms.rooms| ==> publicRooms.rooms[k].count >= 2
    {
      var available := publicRooms.FindAvailableRooms();
      if playerList.GetPlayerByID(s).Some? && available != [] then Some(available[0]) else None
    }

    /** `public_rooms.AddRoom(player)`: the server stays valid (public rooms need no host). */
    method AddPublicRoom(id: string, ps: seq<Player>) returns (room: Room)
      requires Valid()
      modifies publicRooms
      ensures Valid()
      ensures fresh(room) && publicRooms.rooms == old(publicRooms.rooms) + [room]
      ensures room.id == id && room.roomType == Public && room.players == ps && room.count == |ps|
      ensures room.host.None? && room.white.None? && room.black.None? && room.currentTurn.None? && !room.hasStarted
    {
      room := publicRooms.AddRoom(id, ps);
    }

    /**
     * OnSearchForGames in an available public room holding another player:
     * the sender joins it, the sides are set and the game starts; the
     * sender, who joined second, is black on a zero coin and white
     * otherwise, and the other player has the opposite side.
     */
    method JoinPublicGame(room: Room, p: Player, coinIsZero: bool)
      requires Valid() && room in publicRooms.rooms && room.count < 2 && room.GetOtherPlayer(p.id).Some?
      modifies this, room
      ensures Valid()
      ensures room.players == old(room.players) + [p] && room.count == old(room.count) + 1
      ensures room.host == old(room.host) && room.hasStarted
      ensures room.white == Some(if coinIsZero then old(room.GetOtherPlayer(p.id)).value else p)
      ensures room.black == Some(if coinIsZero then p else old(room.GetOtherPlayer(p.id)).value)
      ensures room.currentTurn == room.white
      ensures outbox == old(outbox) + [Emit(p.id, GameStart(Some(if coinIsZero then Black else White))),
                                       Emit(old(room.GetOtherPlayer(p.id)).value.id, GameStart(Some(if coinIsZero then White else Black)))]
    {
      var other := room.GetOtherPlayer(p.id);
      assert room.CountMatches();
      assert room.players == [other.value];
      AddToRoom(room, p);
      StartRoom(room, coinIsZero);
      outbox := outbox + [Emit(p.id, GameStart(room.GetPlayerSide(p.id))), Emit(other.value.id, GameStart(room.GetPlayerSide(other.value.id)))];
    }

    /**
     * OnSearchForGames: for a registered sender, with no public room holding
     * fewer than two players a new public room (ID `newRoomId`) is created
     * holding only the sender; otherwise the first such room is joined when
     * it holds a player with another ID (see JoinPublicGame), and nothing
     * happens when it does not.
     */
    method OnSearchForGames(s: string, newRoomId: string, coinIsZero: bool)
      requires Valid()
      modifies this, publicRooms, publicRooms.rooms
      ensures Valid()
      ensures var p := old(playerList.GetPlayerByID(s));
              var room := old(SearchedRoom(s));
              if p.None? then
                outbox == old(outbox) && publicRooms.rooms == old(publicRooms.rooms)
              else if room.None? then
                outbox == old(outbox) &&
                |publicRooms.rooms| == |old(publicRooms.rooms)| + 1 &&
                publicRooms.rooms[..|old(publicRooms.rooms)|] == old(publicRooms.rooms) &&
                var r := publicRooms.rooms[|old(publicRooms.rooms)|];
                fresh(r) && r.id == newRoomId && r.roomType == Public && r.players == [p.value] && r.count == 1 &&
                r.host.None? && r.white.None? && r.black.None? && r.currentTurn.None? && !r.hasStarted
              else
                var other := old(room.value.GetOtherPlayer(s));
                publicRooms.rooms == old(publicRooms.rooms) &&
                if other.None? then
                  outbox == old(outbox) && unchanged(room.value)
                else
                  room.value.players == old(room.value.players) + [p.value] && room.value.count == old(room.value.count) + 1 &&
                  room.value.host == old(room.value.host) && room.value.hasStarted &&
                  room.value.white == Some(if coinIsZero then other.value else p.value) &&
                  room.value.black == Some(if coinIsZero then p.value else other.value) &&
                  room.value.currentTurn == room.value.white &&
                  outbox == old(outbox) + [Emit(s, GameStart(Some(if coinIsZero then Black else White))),
                                           Emit(other.value.id, GameStart(Some(if coinIsZero then White else Black)))]
      ensures forall k :: 0 <= k < |old(publicRooms.rooms)| && Some(old(publicRooms.rooms)[k]) != old(SearchedRoom(s)) ==>
                unchanged(old(publicRooms.rooms)[k])
    {
      var availableRooms := publicRooms.FindAvailableRooms();
      var player := playerList.GetPlayerByID(s);
      if player.None? {
        return;
      }
      if availableRooms == [] {
        var created := AddPublicRoom(newRoomId, [player.value]);
        return;
      }
      var room := availableRooms[0];
      var other := room.GetOtherPlayer(player.value.id);
      if other.None? {
        return;
      }
      JoinPublicGame(room, player.value, coinIsZero);
    }

    /** The custom list once a started game in `room` has been removed as won: the first step of a disconnect from a custom room with another player. */
    function AfterWin(room: Room): (r: seq<Room>)
      reads customRooms, room
      ensures forall x :: x in r ==> x in customRooms.rooms
    {
      RemoveFirstRoomSub(customRooms.rooms, room.id);
      if room.hasStarted then RemoveFirstRoom(customRooms.rooms, room.id) else customRooms.rooms
    }

    /** The room OnLeaveCustomRoom then leaves: the registered sender's first custom room in AfterWin(room). */
    function LeftRoom(room: Room, s: string): Option<Room>
      reads playerList, customRooms, customRooms.rooms, room
    {
      if playerList.GetPlayerByID(s).None? then None else RoomOf(AfterWin(room), s)
    }

    /**
     * The emits of a disconnect from custom `room` holding another player:
     * `game:win` to that player when the game had started, then those of the
     * leave flow on LeftRoom.
     */
    function CustomLeaveEmits(room: Room, s: string): seq<Emit>
      reads playerList, customRooms, customRooms.rooms, room
    {
      var other := room.GetOtherPlayer(s);
      var left := LeftRoom(room, s);
      (if other.Some? && room.hasStarted then [Emit(other.value.id, GameWin)] else []) +
      (if left.Some? then LeaveEmits(left.value, s) else [])
    }

    /** The custom list after such a disconnect: AfterWin, less LeftRoom when the sender hosts it. */
    function CustomLeaveRooms(room: Room, s: string): seq<Room>
      reads playerList, customRooms, customRooms.rooms, room
    {
      var left := LeftRoom(room, s);
      if left.Some? && HostIs(left.value, s) then RemoveFirstRoom(AfterWin(room), left.value.id) else AfterWin(room)
    }

    /**
     * The first step of OnClientDisconnect in `room` of `list`: with another
     * player in a started game, that player is told it won and the room
     * leaves the list.
     */
    method WinOnDisconnect(list: RoomList, room: Room, s: string) returns (won: bool)
      requires Valid() && (list == publicRooms || list == customRooms) && room in list.rooms
      modifies this, list
      ensures Valid() && (list == customRooms ==> unchanged(publicRooms))
      ensures won == old(room.GetOtherPlayer(s).Some? && room.hasStarted)
      ensures won ==> outbox == old(outbox) + [Emit(old(room.GetOtherPlayer(s)).value.id, GameWin)] &&
                      list.rooms == RemoveFirstRoom(old(list.rooms), room.id)
      ensures !won ==> outbox == old(outbox) && list.rooms == old(list.rooms)
      ensures list == customRooms && old(room.GetOtherPlayer(s)).Some? ==>
                customRooms.rooms == old(AfterWin(room)) && LeaveTarget(s) == old(LeftRoom(room, s))
    {
      var other := room.GetOtherPlayer(s);
      won := other.Some? && room.hasStarted;
      if won {
        outbox := outbox + [Emit(other.value.id, GameWin)];
        RemoveRoomFrom(list, room.id);
      }
      if list == customRooms && other.Some? {
        ghost var mid := customRooms.rooms;
        assert mid == old(AfterWin(room));
        assert RoomOf(mid, s) == old(RoomOf(mid, s));
        assert playerList.GetPlayerByID(s) == old(playerList.GetPlayerByID(s));
      }
    }

    /**
     * OnClientDisconnect for a sender with another player in custom `room`:
     * a started game is won by that player and leaves the list, then the
     * sender leaves its custom room as by `room:leave`.
     */
    method LeaveCustomOnDisconnect(room: Room, s: string)
      requires Valid() && room in customRooms.rooms && room.GetOtherPlayer(s).Some?
      modifies this, customRooms, if LeftRoom(room, s).Some? then {LeftRoom(room, s).value} else {}
      ensures Valid()
      ensures publicRooms.rooms == old(publicRooms.rooms)
      ensures outbox == old(outbox) + old(CustomLeaveEmits(room, s))
      ensures customRooms.rooms == old(CustomLeaveRooms(room, s))
      ensures old(LeftRoom(room, s)).Some? ==>
                var left := old(LeftRoom(room, s)).value;
                if old(HostIs(left, s)) then unchanged(left)
                else
                  left.players == RemoveFirstID(old(left.players), s) && left.host == old(left.host) &&
                  left.white == old(left.white) && left.black == old(left.black) &&
                  left.currentTurn == old(left.currentTurn) && left.hasStarted == old(left.hasStarted)
    {
      ghost var leftRoom, mid := LeftRoom(room, s), AfterWin(room);
      ghost var winEmits := if room.hasStarted then [Emit(room.GetOtherPlayer(s).value.id, GameWin)] else [];
      ghost var leaveEmits := if leftRoom.Some? then LeaveEmits(leftRoom.value, s) else [];
      ghost var hostLeaves := leftRoom.Some? && HostIs(leftRoom.value, s);
      ghost var expected := CustomLeaveEmits(room, s);
      assert expected == winEmits + leaveEmits;
      assert CustomLeaveRooms(room, s) == if hostLeaves then RemoveFirstRoom(mid, leftRoom.value.id) else mid;
      var won := WinOnDisconnect(customRooms, room, s);
      assert outbox == old(outbox) + winEmits;
      assert leftRoom.Some? ==> unchanged(leftRoom.value);
      assert leftRoom.Some? ==> LeaveEmits(leftRoom.value, s) == leaveEmits && HostIs(leftRoom.value, s) == hostLeaves;
      ghost var afterWin := outbox;
      OnLeaveCustomRoom(s);
      assert outbox == afterWin + leaveEmits;
      AppendAssocEmits(old(outbox), winEmits, leaveEmits);
      assert outbox == old(outbox) + expected;
    }

    /**
     * OnClientDisconnect for a registered sender in `room` of `list` when
     * the room is public or holds only the sender (LeaveCustomOnDisconnect
     * takes a custom room with another player): after WinOnDisconnect, a
     * public room leaves the list (a second time after a won game); a custom
     * room holding only the sender is kept.
     */
    method LeaveOnDisconnect(list: RoomList, room: Room, s: string)
      requires Valid() && (list == publicRooms || list == customRooms) && room in list.rooms
      requires room.roomType == Public || room.GetOtherPlayer(s).None?
      modifies this, publicRooms, customRooms
      ensures Valid()
      ensures var other := old(room.GetOtherPlayer(s));
              old(outbox) + (if other.Some? && old(room.hasStarted) then [Emit(other.value.id, GameWin)] else []) <= outbox
      ensures room.roomType == Public ==>
                var other := old(room.GetOtherPlayer(s));
                var removed := RemoveFirstRoom(old(list.rooms), room.id);
                outbox == old(outbox) + (if other.Some? && old(room.hasStarted) then [Emit(other.value.id, GameWin)] else []) &&
                list.rooms == (if other.Some? && old(room.hasStarted) then RemoveFirstRoom(removed, room.id) else removed)
      ensures room.roomType == Custom && old(room.GetOtherPlayer(s)).None? ==>
                outbox == old(outbox) && publicRooms.rooms == old(publicRooms.rooms)
      ensures room.roomType == Public || old(room.GetOtherPlayer(s)).None? ==>
                customRooms.rooms == old(customRooms.rooms) &&
                forall k :: 0 <= k < |old(customRooms.rooms)| ==> unchanged(old(customRooms.rooms)[k])
    {
      var won := WinOnDisconnect(list, room, s);
      if room.roomType == Public {
        RemoveRoomFrom(list, room.id);
      }
    }

    /** The sender's room is a custom room holding another player too. */
    predicate CustomWithOther(s: string)
      reads publicRooms, customRooms, publicRooms.rooms, customRooms.rooms
    {
      var room := PlayerRoom(s);
      room.Some? && room.value.roomType == Custom && room.value.GetOtherPlayer(s).Some?
    }

    /**
     * The only room a disconnect changes: the custom room the sender leaves
     * as by `room:leave` when its room was a custom room with another player.
     */
    function DisconnectTarget(s: string): set<Room>
      reads playerList, publicRooms, customRooms, publicRooms.rooms, customRooms.rooms
    {
      if CustomWithOther(s) && LeftRoom(PlayerRoom(s).value, s).Some? then {LeftRoom(PlayerRoom(s).value, s).value} else {}
    }

    /**
     * The room part of OnClientDisconnect for a registered sender: the room
     * holding it, if any, is left as LeaveCustomOnDisconnect describes for a
     * custom room with another player and as LeaveOnDisconnect describes
     * otherwise.
     */
    method DisconnectFromRoom(s: string)
      requires Valid()
      modifies this, publicRooms, customRooms, DisconnectTarget(s)
      ensures Valid()
      ensures old(PlayerRoom(s)).None? ==> outbox == old(outbox) && publicRooms.rooms == old(publicRooms.rooms)
      ensures var room := old(PlayerRoom(s));
              room.Some? ==>
                var other := old(room.value.GetOtherPlayer(s));
                old(outbox) + (if other.Some? && old(room.value.hasStarted) then [Emit(other.value.id, GameWin)] else []) <= outbox
      ensures var room := old(PlayerRoom(s));
              var t := old(GetPlayerRoomType(s));
              room.Some? && room.value.roomType == Public ==>
                var other := old(room.value.GetOtherPlayer(s));
                var won := other.Some? && old(room.value.hasStarted);
                var removed := RemoveFirstRoom(old(t.value.rooms), room.value.id);
                outbox == old(outbox) + (if won then [Emit(other.value.id, GameWin)] else []) &&
                t.value.rooms == (if won then RemoveFirstRoom(removed, room.value.id) else removed)
      ensures var room := old(PlayerRoom(s));
              room.Some? && room.value.roomType == Custom && old(room.value.GetOtherPlayer(s)).None? ==>
                outbox == old(outbox) && publicRooms.rooms == old(publicRooms.rooms)
      ensures var room := old(PlayerRoom(s));
              room.None? || room.value.roomType == Public || old(room.value.GetOtherPlayer(s)).None? ==>
                customRooms.rooms == old(customRooms.rooms) &&
                forall k :: 0 <= k < |old(customRooms.rooms)| ==> unchanged(old(customRooms.rooms)[k])
      ensures old(CustomWithOther(s)) ==>
                var room := old(PlayerRoom(s)).value;
                publicRooms.rooms == old(publicRooms.rooms) &&
                outbox == old(outbox) + old(CustomLeaveEmits(room, s)) &&
                customRooms.rooms == old(CustomLeaveRooms(room, s))
      ensures old(CustomWithOther(s)) ==>
                var left := old(LeftRoom(PlayerRoom(s).value, s));
                (left.Some? ==>
                  if old(HostIs(left.value, s)) then unchanged(left.value)
                  else
                    left.value.players == RemoveFirstID(old(left.value.players), s) && left.value.host == old(left.value.host) &&
                    left.value.white == old(left.value.white) && left.value.black == old(left.value.black) &&
                    left.value.currentTurn == old(left.value.currentTurn) && left.value.hasStarted == old(left.value.hasStarted))
    {
      var roomType := GetPlayerRoomType(s);
      if roomType.Some? {
        var room := roomType.value.GetPlayerRoom(s);
        assert room == PlayerRoom(s);
        if room.value.roomType == Custom && room.value.GetOtherPlayer(s).Some? {
          assert CustomWithOther(s);
          ghost var winEmits := if room.value.hasStarted then [Emit(room.value.GetOtherPlayer(s).value.id, GameWin)] else [];
          ghost var left := LeftRoom(room.value, s);
          ghost var leaveEmits := if left.Some? then LeaveEmits(left.value, s) else [];
          assert CustomLeaveEmits(room.value, s) == winEmits + leaveEmits;
          LeaveCustomOnDisconnect(room.value, s);
          AppendAssocEmits(old(outbox), winEmits, leaveEmits);
          assert old(outbox) + winEmits <= outbox;
        } else {
          LeaveOnDisconnect(roomType.value, room.value, s);
        }
      }
    }

    /**
     * OnClientDisconnect for a registered sender: it leaves its room as
     * DisconnectFromRoom describes and then the player list.
     */
    method DisconnectPlayer(s: string)
      requires Valid() && playerList.GetPlayerByID(s).Some?
      modifies this, playerList, publicRooms, customRooms, DisconnectTarget(s)
      ensures Valid()
      ensures playerList.players == RemoveFirstID(old(playerList.players), s)
      ensures old(PlayerRoom(s)).None? ==>
                outbox == old(outbox) && publicRooms.rooms == old(publicRooms.rooms)
      ensures var room := old(PlayerRoom(s));
              room.Some? ==>
                var other := old(room.value.GetOtherPlayer(s));
                old(outbox) + (if other.Some? && old(room.value.hasStarted) then [Emit(other.value.id, GameWin)] else []) <= outbox
      ensures var room := old(PlayerRoom(s));
              var t := old(GetPlayerRoomType(s));
              room.Some? && room.value.roomType == Public ==>
                var other := old(room.value.GetOtherPlayer(s));
                var won := other.Some? && old(room.value.hasStarted);
                var removed := RemoveFirstRoom(old(t.value.rooms), room.value.id);
                outbox == old(outbox) + (if won then [Emit(other.value.id, GameWin)] else []) &&
                t.value.rooms == (if won then RemoveFirstRoom(removed, room.value.id) else removed)
      ensures var room := old(PlayerRoom(s));
              room.Some? && room.value.roomType == Custom && old(room.value.GetOtherPlayer(s)).None? ==>
                outbox == old(outbox) && publicRooms.rooms == old(publicRooms.rooms)
      ensures var room := old(PlayerRoom(s));
              room.None? || room.value.roomType == Public || old(room.value.GetOtherPlayer(s)).None? ==>
                customRooms.rooms == old(customRooms.rooms) &&
                forall k :: 0 <= k < |old(customRooms.rooms)| ==> unchanged(old(customRooms.rooms)[k])
      ensures old(CustomWithOther(s)) ==>
                var room := old(PlayerRoom(s)).value;
                publicRooms.rooms == old(publicRooms.rooms) &&
                outbox == old(outbox) + old(CustomLeaveEmits(room, s)) &&
                customRooms.rooms == old(CustomLeaveRooms(room, s))
      ensures old(CustomWithOther(s)) ==>
                var left := old(LeftRoom(PlayerRoom(s).value, s));
                left.Some? ==>
                  if old(HostIs(left.value, s)) then unchanged(left.value)
                  else
                    left.value.players == RemoveFirstID(old(left.value.players), s) && left.value.host == old(left.value.host) &&
                    left.value.white == old(left.value.white) && left.value.black == old(left.value.black) &&
                    left.value.currentTurn == old(left.value.currentTurn) && left.value.hasStarted == old(left.value.hasStarted)
    {
      DisconnectFromRoom(s);
      ghost var outMid, publicMid, customMid := outbox, publicRooms.rooms, customRooms.rooms;
      RemoveFromPlayerList(s);
      assert outbox == outMid && publicRooms.rooms == publicMid && customRooms.rooms == customMid;
    }

    /**
     * OnClientDisconnect: a registered sender leaves as DisconnectPlayer
     * describes; a sender not registered makes the source throw before any
     * change.
     */
    method OnClientDisconnect(s: string)
      requires Valid()
      modifies this, playerList, publicRooms, customRooms, DisconnectTarget(s)
      ensures Valid()
      ensures old(playerList.GetPlayerByID(s)).None? ==>
                outbox == old(outbox) && playerList.players == old(playerList.players) && publicRooms.rooms == old(publicRooms.rooms)
      ensures old(playerList.GetPlayerByID(s)).Some? ==> playerList.players == RemoveFirstID(old(playerList.players), s)
      ensures old(playerList.GetPlayerByID(s)).Some? && old(PlayerRoom(s)).None? ==>
                outbox == old(outbox) && publicRooms.rooms == old(publicRooms.rooms)
      ensures var room := old(PlayerRoom(s));
              old(playerList.GetPlayerByID(s)).Some? && room.Some? ==>
                var other := old(room.value.GetOtherPlayer(s));
                old(outbox) + (if other.Some? && old(room.value.hasStarted) then [Emit(other.value.id, GameWin)] else []) <= outbox
      ensures var room := old(PlayerRoom(s));
              var t := old(GetPlayerRoomType(s));
              old(playerList.GetPlayerByID(s)).Some? && room.Some? && room.value.roomType == Public ==>
                var other := old(room.value.GetOtherPlayer(s));
                var won := other.Some? && old(room.value.hasStarted);
                var removed := RemoveFirstRoom(old(t.value.rooms), room.value.id);
                outbox == old(outbox) + (if won then [Emit(other.value.id, GameWin)] else []) &&
                t.value.rooms == (if won then RemoveFirstRoom(removed, room.value.id) else removed)
      ensures var room := old(PlayerRoom(s));
              old(playerList.GetPlayerByID(s)).Some? && room.Some? && room.value.roomType == Custom && old(room.value.GetOtherPlayer(s)).None? ==>
                outbox == old(outbox) && publicRooms.rooms == old(publicRooms.rooms)
      ensures var room := old(PlayerRoom(s));
              old(playerList.GetPlayerByID(s)).None? || room.None? || room.value.roomType == Public || old(room.value.GetOtherPlayer(s)).None? ==>
                customRooms.rooms == old(customRooms.rooms) &&
                forall k :: 0 <= k < |old(customRooms.rooms)| ==> unchanged(old(customRooms.rooms)[k])
      ensures old(playerList.GetPlayerByID(s)).Some? && old(CustomWithOther(s)) ==>
                var room := old(PlayerRoom(s)).value;
                publicRooms.rooms == old(publicRooms.rooms) &&
                outbox == old(outbox) + old(CustomLeaveEmits(room, s)) &&
                customRooms.rooms == old(CustomLeaveRooms(room, s))
      ensures old(playerList.GetPlayerByID(s)).Some? && old(CustomWithOther(s)) ==>
                var left := old(LeftRoom(PlayerRoom(s).value, s));
                left.Some? ==>
                  if old(HostIs(left.value, s)) then unchanged(left.value)
                  else
                    left.value.players == RemoveFirstID(old(left.value.players), s) && left.value.host == old(left.value.host) &&
                    left.value.white == old(left.value.white) && left.value.black == old(left.value.black) &&
                    left.value.currentTurn == old(left.value.currentTurn) && left.value.hasStarted == old(left.value.hasStarted)
    {
      var player := playerList.GetPlayerByID(s);
      if player.None? {
        return;
      }
      assert player.value.id == s;
      DisconnectPlayer(s);
    }
  }
}
