/**
 * The server's players (server/Player.js): a player is a connection's
 * socket ID and an optional username; the player list is the registry of
 * everyone connected. Rooms hold references to the same player objects.
 */
module ServerPlayers {
  import opened Wrappers

  /** A connected client. */
  class Player {
    /** `ID`, the socket ID; never reassigned. */
    const id: string
    /** `username`, null until the client sends one. */
    var username: Option<string>

    /** A new player has the given ID and no username. */
    constructor(id: string)
      ensures this.id == id && username.None?
    {
      this.id := id;
      username := None;
    }

    /** SetUsername: only the username changes (the ID is a constant). */
    method SetUsername(name: string)
      modifies this
      ensures username == Some(name)
    {
      username := Some(name);
    }
  }

  /** `findIndex(player => player.ID == id)`: the first position of a player with that ID, or -1. */
  function IndexOfID(ps: seq<Player>, id: string): (i: int)
    ensures -1 <= i < |ps|
    ensures 0 <= i ==> ps[i].id == id
  {
    if ps == [] then -1
    else if ps[0].id == id then 0
    else
      var i := IndexOfID(ps[1..], id);
      if i < 0 then -1 else i + 1
  }

  /** IndexOfID is -1 exactly when no player has that ID, and otherwise the position of the first one that does. */
  lemma {:induction false} IndexOfIDSpec(ps: seq<Player>, id: string)
    ensures IndexOfID(ps, id) == -1 <==> forall k :: 0 <= k < |ps| ==> ps[k].id != id
    ensures 0 <= IndexOfID(ps, id) ==> forall k :: 0 <= k < IndexOfID(ps, id) ==> ps[k].id != id
  {
    if ps != [] && ps[0].id != id {
      IndexOfIDSpec(ps[1..], id);
      assert forall k :: 0 < k < |ps| ==> ps[k] == ps[1..][k - 1];
    }
  }

  /** `find(player => player.ID == id)`: the first player with that ID, or none. */
  function FindByID(ps: seq<Player>, id: string): (r: Option<Player>)
    ensures r.None? <==> forall k :: 0 <= k < |ps| ==> ps[k].id != id
    ensures r.Some? ==> r.value.id == id && r.value in ps
    ensures r.Some? ==> exists i :: 0 <= i < |ps| && ps[i] == r.value && forall k :: 0 <= k < i ==> ps[k].id != id
  {
    IndexOfIDSpec(ps, id);
    var i := IndexOfID(ps, id);
    if i < 0 then None else Some(ps[i])
  }

  /** `splice(findIndex(..), 1)` after the `< 0` test: the list without its first player with that ID. */
  function RemoveFirstID(ps: seq<Player>, id: string): seq<Player> {
    var i := IndexOfID(ps, id);
    if i < 0 then ps else ps[..i] + ps[i + 1..]
  }

  /** With no player of that ID nothing is removed; otherwise exactly the first player with that ID goes. */
  lemma RemoveFirstIDSpec(ps: seq<Player>, id: string)
    ensures IndexOfID(ps, id) < 0 ==> RemoveFirstID(ps, id) == ps
    ensures 0 <= IndexOfID(ps, id) ==>
              |RemoveFirstID(ps, id)| == |ps| - 1 &&
              multiset(RemoveFirstID(ps, id)) + multiset{ps[IndexOfID(ps, id)]} == multiset(ps)
  {
    var i := IndexOfID(ps, id);
    if 0 <= i {
      SpliceSpec(ps, i);
    }
  }

  /** The other players keep their order: position k holds the k-th player before the removed one and the (k+1)-th after it. */
  lemma RemoveFirstIDIndex(ps: seq<Player>, id: string, k: int)
    requires 0 <= k < |RemoveFirstID(ps, id)|
    ensures RemoveFirstID(ps, id)[k] == if k < IndexOfID(ps, id) || IndexOfID(ps, id) < 0 then ps[k] else ps[k + 1]
  {
    var i := IndexOfID(ps, id);
    if 0 <= i {
      SpliceSpec(ps, i);
    }
  }



  /** `splice(i, 1)`: one element fewer, the one at i gone, the others in their order. */
  lemma SpliceSpec<T>(s: seq<T>, i: int)
    requires 0 <= i < |s|
    ensures |s[..i] + s[i + 1..]| == |s| - 1
    ensures multiset(s[..i] + s[i + 1..]) + multiset{s[i]} == multiset(s)
    ensures forall k :: 0 <= k < |s| - 1 ==> (s[..i] + s[i + 1..])[k] == if k < i then s[k] else s[k + 1]
  {
    assert s == s[..i] + [s[i]] + s[i + 1..];
  }

  /** The registry of connected players (`PlayerList`). */
  class PlayerList {
    /** `players`, in order of arrival. */
    var players: seq<Player>

    /** An empty registry. */
    constructor()
      ensures players == []
    {
      players := [];
    }

    /** AddPlayer: append a new player with that ID and no username. */
    method AddPlayer(id: string)
      modifies this
      ensures |players| == |old(players)| + 1 && players[..|old(players)|] == old(players)
      ensures fresh(players[|old(players)|])
      ensures players[|old(players)|].id == id && players[|old(players)|].username.None?
    {
      var p := new Player(id);
      players := players + [p];
    }

    /** RemovePlayer: remove the first player with that ID; with none, change nothing. */
    method RemovePlayer(id: string)
      modifies this
      ensures players == RemoveFirstID(old(players), id)
    {
      var i := GetPlayerIndex(id);
      if i < 0 {
        return;
      }
      players := players[..i] + players[i + 1..];
    }

    /** GetPlayerByID: the first player with that ID, or none. */
    function GetPlayerByID(id: string): (r: Option<Player>)
      reads this
      ensures r.None? <==> forall k :: 0 <= k < |players| ==> players[k].id != id
      ensures r.Some? ==> r.value.id == id && r.value in players
      ensures r.Some? ==> exists i :: 0 <= i < |players| && players[i] == r.value && forall k :: 0 <= k < i ==> players[k].id != id
    {
      FindByID(players, id)
    }

    /** GetPlayerIndex: the position of the first player with that ID; -1 exactly when there is none. */
    function GetPlayerIndex(id: string): (i: int)
      reads this
      ensures -1 <= i < |players|
      ensures i == -1 <==> forall k :: 0 <= k < |players| ==> players[k].id != id
      ensures 0 <= i ==> players[i].id == id && forall k :: 0 <= k < i ==> players[k].id != id
    {
      IndexOfIDSpec(players, id);
      IndexOfID(players, id)
    }
  }

  /** A player whose ID differs stays in the list when the first player with that ID is removed. */
  lemma RemoveFirstIDOthers(ps: seq<Player>, id: string, p: Player)
    requires p in ps && p.id != id
    ensures p in RemoveFirstID(ps, id)
  {
    var r := RemoveFirstID(ps, id);
    var i := IndexOfID(ps, id);
    RemoveFirstIDSpec(ps, id);
    var j :| 0 <= j < |ps| && ps[j] == p;
    if 0 <= i {
      assert j != i;
      var m := if j < i then j else j - 1;
      RemoveFirstIDIndex(ps, id, m);
      assert r[m] == p;
    }
  }
}
