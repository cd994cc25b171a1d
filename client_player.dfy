/**
 * The local player of the client (public/src/Game/Player.js): applying
 * moves to the shared board, the turn flag, selection, promotion, and the
 * events the player sends to the server.
 *
 * Pieces are values in the board's list (Board.Chessboard.pieces), so the
 * source's "move this piece object" becomes "replace the element of the
 * list this object is"; the index of that element is tracked through the
 * removal of a captured piece. A click is abstracted to the coordinate the
 * ray hits (or none). What the source sends with `Socket.instance.EmitEvent`
 * is appended to `outbox`. A lookup of a square that does not exist makes
 * the source throw a TypeError part-way through a handler; the model stops
 * the handler at that point, keeping the changes made before it.
 */
module ClientPlayer {
  import opened Wrappers
  import opened Coordinates
  import opened Pieces
  import opened Moves
  import opened Board

  /** The events the client sends: `game:win`, `game:move {from, to}`, `game:promote_piece {at, type}`. */
  datatype ClientEvent =
    | GameWin
    | GameMove(from: string, to: string)
    | PromotePiece(at: string, pieceType: string)

  /** A move `{from, to}` chosen locally whose `game:move` waits for a promotion choice. */
  datatype PendingMove = PendingMove(from: string, to: string)

  // ---------------------------------------------------------------------
  // Applying a move to the piece list

  /** The mover after SetCoordinate(to), and after SetHasMoved(true) when the square `to` exists. */
  function Moved(p: Piece, to: string, onSquare: bool): (r: Piece)
    ensures r.coord == to && r.kind == p.kind && r.side == p.side
    ensures r.hasMoved == (onSquare || p.hasMoved)
  {
    p.(coord := to, hasMoved := if onSquare then true else p.hasMoved)
  }

  /** Where the mover stands once the piece on `to` is removed: -1 when it was the piece removed. */
  function MoverSlot(pieces: seq<Piece>, from: string, to: string): int {
    var i := FindIndex(pieces, from);
    if PieceAt(pieces, to).None? then i
    else
      var j := FindIndex(pieces, to);
      if j == i then -1 else if j < i then i - 1 else i
  }

  /** The mover keeps its place in the list after the removal, except when it is the piece removed, which happens exactly when from == to. */
  lemma MoverSlotSpec(pieces: seq<Piece>, from: string, to: string)
    requires PieceAt(pieces, from).Some?
    ensures -1 <= MoverSlot(pieces, from, to) < |RemoveAt(pieces, to)|
    ensures MoverSlot(pieces, from, to) < 0 <==> from == to
    ensures 0 <= MoverSlot(pieces, from, to) ==> RemoveAt(pieces, to)[MoverSlot(pieces, from, to)] == PieceAt(pieces, from).value
  {
    FindIndexSpec(pieces, from);
    FindIndexSpec(pieces, to);
    RemoveAtSpec(pieces, to);
    var k := MoverSlot(pieces, from, to);
    if PieceAt(pieces, to).Some? && 0 <= k {
      RemoveAtIndex(pieces, to, k);
    }
  }

  /**
   * The list after the move steps of the `game:move` listener and of
   * MovePiece: the first piece on `to`, if any, is removed, and then the
   * first piece on `from` (found before that removal) is moved to `to`;
   * when both are the same piece it is gone from the list.
   */
  function ApplyMove(pieces: seq<Piece>, from: string, to: string, onSquare: bool): seq<Piece>
    requires PieceAt(pieces, from).Some?
  {
    MoverSlotSpec(pieces, from, to);
    var rest := RemoveAt(pieces, to);
    var k := MoverSlot(pieces, from, to);
    if k < 0 then rest else rest[k := Moved(PieceAt(pieces, from).value, to, onSquare)]
  }

  /** On a list with distinct coordinates, PieceAt is the element standing on the coordinate. */
  lemma DistinctPieceAt(pieces: seq<Piece>, d: string)
    requires DistinctCoords(pieces)
    ensures forall k :: 0 <= k < |pieces| && pieces[k].coord == d ==> PieceAt(pieces, d) == Some(pieces[k])
    ensures (forall k :: 0 <= k < |pieces| ==> pieces[k].coord != d) ==> PieceAt(pieces, d).None?
  {
    FindIndexSpec(pieces, d);
    forall k | 0 <= k < |pieces| && pieces[k].coord == d ensures PieceAt(pieces, d) == Some(pieces[k]) {
      PieceAtUnique(pieces, k);
    }
  }

  /** Moving the piece at index i of a distinct list to an empty coordinate `to`. */
  lemma UpdateSpec(pieces: seq<Piece>, i: int, mover: Piece, d: string)
    requires DistinctCoords(pieces) && 0 <= i < |pieces|
    requires PieceAt(pieces, mover.coord).None? && mover.coord != pieces[i].coord
    ensures DistinctCoords(pieces[i := mover])
    ensures PieceAt(pieces[i := mover], mover.coord) == Some(mover)
    ensures PieceAt(pieces[i := mover], pieces[i].coord).None?
    ensures d != mover.coord && d != pieces[i].coord ==> PieceAt(pieces[i := mover], d) == PieceAt(pieces, d)
  {
    var ps := pieces[i := mover];
    FindIndexSpec(pieces, mover.coord);
    assert forall k :: 0 <= k < |pieces| ==> pieces[k].coord != mover.coord;
    assert DistinctCoords(ps) by {
      forall a, b | 0 <= a < b < |ps| ensures ps[a].coord != ps[b].coord {
        if a != i && b != i {
          assert ps[a] == pieces[a] && ps[b] == pieces[b];
        }
      }
    }
    PieceAtUnique(ps, i);
    DistinctPieceAt(ps, pieces[i].coord);
    if d != mover.coord && d != pieces[i].coord {
      FindIndexSpec(pieces, d);
      DistinctPieceAt(ps, d);
      if PieceAt(pieces, d).Some? {
        var k := FindIndex(pieces, d);
        assert ps[k] == pieces[k];
      } else {
        assert forall k :: 0 <= k < |ps| ==> ps[k].coord != d;
      }
    }
  }

  /**
   * With distinct coordinates and from != to: afterwards the mover (moved)
   * is the piece on `to`, `from` is empty, every other coordinate holds what
   * it held, the list shrinks by one exactly when something was captured,
   * and the coordinates stay distinct.
   */
  lemma ApplyMoveSpec(pieces: seq<Piece>, from: string, to: string, onSquare: bool, d: string)
    requires DistinctCoords(pieces) && PieceAt(pieces, from).Some? && from != to
    ensures DistinctCoords(ApplyMove(pieces, from, to, onSquare))
    ensures PieceAt(ApplyMove(pieces, from, to, onSquare), to) == Some(Moved(PieceAt(pieces, from).value, to, onSquare))
    ensures PieceAt(ApplyMove(pieces, from, to, onSquare), from).None?
    ensures d != from && d != to ==> PieceAt(ApplyMove(pieces, from, to, onSquare), d) == PieceAt(pieces, d)
    ensures |ApplyMove(pieces, from, to, onSquare)| == if PieceAt(pieces, to).Some? then |pieces| - 1 else |pieces|
  {
    MoverSlotSpec(pieces, from, to);
    FindIndexSpec(pieces, from);
    var rest := RemoveAt(pieces, to);
    var k := MoverSlot(pieces, from, to);
    RemoveAtDistinct(pieces, to);
    RemoveAtSpec(pieces, to);
    RemoveAtOthers(pieces, to, from);
    if d != to {
      RemoveAtOthers(pieces, to, d);
    }
    UpdateSpec(rest, k, Moved(PieceAt(pieces, from).value, to, onSquare), d);
  }

  /** A move onto the mover's own square takes the mover off the list. */
  lemma ApplyMoveOntoItself(pieces: seq<Piece>, c: string, onSquare: bool)
    requires PieceAt(pieces, c).Some?
    ensures ApplyMove(pieces, c, c, onSquare) == RemoveAt(pieces, c)
    ensures |ApplyMove(pieces, c, c, onSquare)| == |pieces| - 1
  {
    MoverSlotSpec(pieces, c, c);
    RemoveAtSpec(pieces, c);
  }

  // ---------------------------------------------------------------------
  // Promotion and turns

  /** The piece class a promotion type names: 'knight', 'bishop', 'rook' or 'queen'; anything else names none. */
  function PromotionKind(name: string): (r: Option<Kind>)
    ensures r.Some? <==> name == "knight" || name == "bishop" || name == "rook" || name == "queen"
    ensures r.Some? ==> r.value != Pawn && r.value != King
  {
    if name == "knight" then Some(Knight)
    else if name == "bishop" then Some(Bishop)
    else if name == "rook" then Some(Rook)
    else if name == "queen" then Some(Queen)
    else None
  }

  /** The test of MovePiece: a pawn of the player reaching y index 7 as white or 0 as black must be promoted. */
  predicate Promotes(mover: Piece, side: Side, to: string) {
    mover.kind == Pawn &&
    ((GetXYIndices(to).1 == 7 && side == White) || (GetXYIndices(to).1 == 0 && side == Black))
  }

  /** The test of MovePiece before a capture: the captured piece is the other side's King. */
  predicate CapturesKing(pieces: seq<Piece>, side: Side, to: string) {
    PieceAt(pieces, to).Some? && PieceAt(pieces, to).value.kind == King && PieceAt(pieces, to).value.side != side
  }

  /** The events a completed local move sends, in order: `game:win` for a captured King, then `game:move` unless a promotion is pending. */
  function MoveEvents(pieces: seq<Piece>, side: Side, from: string, to: string): (r: seq<ClientEvent>)
    requires PieceAt(pieces, from).Some?
    ensures |r| <= 2
    ensures GameWin in r <==> CapturesKing(pieces, side, to)
    ensures GameMove(from, to) in r <==> !Promotes(PieceAt(pieces, from).value, side, to)
    ensures forall e :: e in r ==> e == GameWin || e == GameMove(from, to)
  {
    (if CapturesKing(pieces, side, to) then [GameWin] else []) +
    (if Promotes(PieceAt(pieces, from).value, side, to) then [] else [GameMove(from, to)])
  }

  /** The events a promotion choice sends, in order: the deferred `game:move`, then `game:promote_piece` on its destination. */
  function PromotionEvents(m: PendingMove, name: string): (r: seq<ClientEvent>)
    ensures |r| == 2 && r[0] == GameMove(m.from, m.to) && r[1].PromotePiece? && r[1].at == m.to && r[1].pieceType == name
  {
    [GameMove(m.from, m.to), PromotePiece(m.to, name)]
  }

  /** The piece put in place of a promoted pawn: a fresh, unmoved piece of the named kind. */
  function Promoted(kind: Kind, side: Side, at: string): (r: Piece)
    ensures r.kind == kind && r.side == side && r.coord == at && !r.hasMoved
  {
    Piece(kind, side, at, false)
  }

  /** The local player. */
  class Player {
    /** `_chessboard`, shared with the game. */
    const board: Chessboard
    /** `_side`. */
    var side: Side
    /** `_current_turn`. */
    var currentTurn: bool
    /** `_selected_piece`, or none for null. */
    var selected: Option<Piece>
    /** `_is_moving_piece`. */
    var isMoving: bool
    /** The coordinates of `_possible_move_squares`. */
    var possibleMoves: seq<string>
    /** The move whose OnPromote listeners are registered on the promotion options, if any. */
    var pending: Option<PendingMove>
    /** The events emitted so far, oldest first. */
    var outbox: seq<ClientEvent>

    /** A piece is selected exactly while a piece is being moved. */
    predicate Valid()
      reads this
    {
      isMoving <==> selected.Some?
    }

    /** The constructor: it is your turn exactly when you are white; nothing is selected. */
    constructor(board: Chessboard, side: Side)
      ensures this.board == board && this.side == side
      ensures currentTurn == (side == White)
      ensures selected.None? && !isMoving && possibleMoves == [] && pending.None? && outbox == []
      ensures Valid()
    {
      this.board := board;
      this.side := side;
      currentTurn := side == White;
      selected := None;
      isMoving := false;
      possibleMoves := [];
      pending := None;
      outbox := [];
    }

    /**
     * The first move steps of lines 40-52 and 95-108: remove the piece on
     * `to` and set the mover's coordinate to `to`; `k` is the mover's index
     * afterwards, or -1 when the mover was the piece removed.
     */
    method TakeSquare(mover: Piece, from: string, to: string) returns (k: int)
      requires PieceAt(board.pieces, from) == Some(mover)
      modifies board
      ensures k == MoverSlot(old(board.pieces), from, to) && k < |board.pieces|
      ensures board.squares == old(board.squares)
      ensures board.pieces == ApplyMove(old(board.pieces), from, to, false)
    {
      ghost var p0 := board.pieces;
      var i := FindIndex(board.pieces, from);
      k := i;
      var dst := board.GetPieceByCoordinate(to);
      if dst.Some? {
        var j := FindIndex(board.pieces, to);
        board.RemovePiece(dst.value);
        k := if j == i then -1 else if j < i then i - 1 else i;
      } else {
        RemoveAtSpec(p0, to);
      }
      MoverSlotSpec(p0, from, to);
      if 0 <= k {
        board.pieces := board.pieces[k := Moved(mover, to, false)];
      }
    }

    /**
     * The move steps lines 40-52 and 95-108 share: TakeSquare, then look up
     * the square `to` (a TypeError when there is none ends the handler
     * there) and set `has_moved` of the mover.
     */
    method Relocate(mover: Piece, from: string, to: string) returns (onSquare: bool)
      requires PieceAt(board.pieces, from) == Some(mover)
      modifies board
      ensures onSquare == (to in board.squares)
      ensures board.squares == old(board.squares)
      ensures board.pieces == ApplyMove(old(board.pieces), from, to, onSquare)
    {
      ghost var p0 := board.pieces;
      var k := TakeSquare(mover, from, to);
      onSquare := board.GetSquareByCoordinate(to);
      if !onSquare {
        return;
      }
      MoverSlotSpec(p0, from, to);
      if 0 <= k {
        board.pieces := board.pieces[k := Moved(mover, to, true)];
      }
    }

    /** The `game:move` listener: it becomes your turn; a move from an empty coordinate is then ignored. */
    method OnGameMove(from: string, to: string)
      modifies this, board
      ensures currentTurn
      ensures board.squares == old(board.squares)
      ensures PieceAt(old(board.pieces), from).None? ==> board.pieces == old(board.pieces)
      ensures PieceAt(old(board.pieces), from).Some? ==>
                board.pieces == ApplyMove(old(board.pieces), from, to, to in old(board.squares))
      ensures side == old(side) && selected == old(selected) && isMoving == old(isMoving)
      ensures possibleMoves == old(possibleMoves) && pending == old(pending) && outbox == old(outbox)
    {
      SetCurrentTurn(true);
      var mover := board.GetPieceByCoordinate(from);
      if mover.None? {
        return;
      }
      var _ := Relocate(mover.value, from, to);
    }

    /**
     * The `game:promote_piece` listener: for a known type, the piece on `at`
     * is replaced by a fresh piece of that type of the opponent's side,
     * appended to the list. An unknown type changes nothing; no piece on `at`
     * makes RemovePiece throw before any change.
     */
    method OnGamePromotePiece(at: string, name: string)
      modifies board
      ensures board.squares == old(board.squares)
      ensures PromotionKind(name).None? || PieceAt(old(board.pieces), at).None? ==> board.pieces == old(board.pieces)
      ensures PromotionKind(name).Some? && PieceAt(old(board.pieces), at).Some? ==>
                board.pieces == RemoveAt(old(board.pieces), at) +
                                (if at in board.squares then [Promoted(PromotionKind(name).value, Opponent(side), at)] else [])
    {
      var kind := PromotionKind(name);
      if kind.None? {
        return;
      }
      var pawn := board.GetPieceByCoordinate(at);
      if pawn.None? {
        return;
      }
      FindIndexSpec(board.pieces, at);
      board.RemovePiece(pawn.value);
      var onSquare := board.GetSquareByCoordinate(pawn.value.coord);
      if !onSquare {
        return;
      }
      var promoted := Promoted(kind.value, if side == White then Black else White, pawn.value.coord);
      board.pieces := board.pieces + [promoted];
    }

    /**
     * MovePiece: a move from an empty coordinate does nothing. Otherwise a
     * capture of the other side's King sends `game:win`, the move is
     * applied, and, once the square `to` exists, either a promotion is left
     * pending (a pawn of the player's side reaching the last rank) or
     * `game:move` is sent.
     */
    method MovePiece(from: string, to: string)
      modifies this, board
      ensures board.squares == old(board.squares)
      ensures side == old(side) && currentTurn == old(currentTurn) && selected == old(selected)
      ensures isMoving == old(isMoving) && possibleMoves == old(possibleMoves)
      ensures PieceAt(old(board.pieces), from).None? ==>
                board.pieces == old(board.pieces) && pending == old(pending) && outbox == old(outbox)
      ensures PieceAt(old(board.pieces), from).Some? && to !in old(board.squares) ==>
                board.pieces == ApplyMove(old(board.pieces), from, to, false) && pending == old(pending) &&
                outbox == old(outbox) + (if CapturesKing(old(board.pieces), side, to) then [GameWin] else [])
      ensures PieceAt(old(board.pieces), from).Some? && to in old(board.squares) ==>
                board.pieces == ApplyMove(old(board.pieces), from, to, true) &&
                outbox == old(outbox) + MoveEvents(old(board.pieces), side, from, to) &&
                pending == if Promotes(PieceAt(old(board.pieces), from).value, side, to) then Some(PendingMove(from, to)) else old(pending)
    {
      var mover := board.GetPieceByCoordinate(from);
      if mover.None? {
        return;
      }
      var dst := board.GetPieceByCoordinate(to);
      if dst.Some? && dst.value.kind == King && dst.value.side != side {
        outbox := outbox + [GameWin];
      }
      var onSquare := Relocate(mover.value, from, to);
      if !onSquare {
        return;
      }
      var y := GetXYIndices(to).1;
      if mover.value.kind == Pawn {
        if (y == 7 && side == White) || (y == 0 && side == Black) {
          pending := Some(PendingMove(from, to));
          return;
        }
      }
      outbox := outbox + [GameMove(from, to)];
    }

    /**
     * OnPromote, a click on a promotion option while a promotion is pending:
     * the listeners are removed whatever the option; for a known type the
     * pawn on the destination is replaced by a fresh piece of the player's
     * side, then `game:move` and `game:promote_piece` are sent in that order.
     */
    method ChoosePromotion(name: string)
      modifies this, board
      ensures board.squares == old(board.squares)
      ensures side == old(side) && currentTurn == old(currentTurn) && selected == old(selected)
      ensures isMoving == old(isMoving) && possibleMoves == old(possibleMoves)
      ensures pending.None?
      ensures old(pending).None? || PromotionKind(name).None? ==> board.pieces == old(board.pieces) && outbox == old(outbox)
      ensures old(pending).Some? && PromotionKind(name).Some? && old(pending).value.to !in old(board.squares) ==>
                board.pieces == RemoveAt(old(board.pieces), old(pending).value.to) && outbox == old(outbox)
      ensures old(pending).Some? && PromotionKind(name).Some? && old(pending).value.to in old(board.squares) ==>
                board.pieces == RemoveAt(old(board.pieces), old(pending).value.to) +
                                [Promoted(PromotionKind(name).value, side, old(pending).value.to)] &&
                outbox == old(outbox) + PromotionEvents(old(pending).value, name)
    {
      if pending.None? {
        return;
      }
      var m := pending.value;
      pending := None;
      var kind := PromotionKind(name);
      if kind.None? {
        return;
      }
      board.RemovePiece(Promoted(Pawn, side, m.to));
      var onSquare := board.GetSquareByCoordinate(m.to);
      if !onSquare {
        return;
      }
      board.pieces := board.pieces + [Promoted(kind.value, side, m.to)];
      outbox := outbox + [GameMove(m.from, m.to)];
      outbox := outbox + [PromotePiece(m.to, name)];
    }

    /** SetSide: the new side, your turn exactly when it is white, and nothing selected. */
    method SetSide(s: Side)
      modifies this
      ensures side == s && currentTurn == (s == White)
      ensures selected.None? && !isMoving && Valid()
      ensures possibleMoves == old(possibleMoves) && pending == old(pending) && outbox == old(outbox)
    {
      side := s;
      currentTurn := side == White;
      Unselect();
    }

    /** SetCurrentTurn. */
    method SetCurrentTurn(isCurrentTurn: bool)
      modifies this
      ensures currentTurn == isCurrentTurn
      ensures side == old(side) && selected == old(selected) && isMoving == old(isMoving)
      ensures possibleMoves == old(possibleMoves) && pending == old(pending) && outbox == old(outbox)
    {
      currentTurn := isCurrentTurn;
    }

    /** Unselect: no piece selected and none being moved; the stored move squares stay. */
    method Unselect()
      modifies this
      ensures selected.None? && !isMoving && Valid()
      ensures side == old(side) && currentTurn == old(currentTurn)
      ensures possibleMoves == old(possibleMoves) && pending == old(pending) && outbox == old(outbox)
    {
      selected := None;
      isMoving := false;
    }

    /** SelectPiece: with a piece and a square at `c`, select that piece and store its possible moves; otherwise nothing changes. */
    method SelectPiece(c: string)
      modifies this
      ensures side == old(side) && currentTurn == old(currentTurn) && pending == old(pending) && outbox == old(outbox)
      ensures PieceAt(board.pieces, c).None? || c !in board.squares ==> unchanged(this)
      ensures PieceAt(board.pieces, c).Some? && c in board.squares ==>
                selected == PieceAt(board.pieces, c) && isMoving &&
                possibleMoves == PossibleMoves(PieceAt(board.pieces, c).value, board.pieces)
      ensures old(Valid()) ==> Valid()
    {
      var piece := board.GetPieceByCoordinate(c);
      var square := board.GetSquareByCoordinate(c);
      if piece.None? || !square {
        return;
      }
      selected := piece;
      isMoving := true;
      possibleMoves := GetPossibleMoves(piece.value, board.pieces);
    }

    /**
     * OnClick, with the coordinate the ray hits: ignored when it is not your
     * turn. While moving, a hit on a move square clears the turn, makes the
     * move from the selected piece's coordinate, and unselects; a miss only
     * unselects. Otherwise the selection is cleared and a hit piece is selected.
     */
    method OnClick(hit: Option<string>)
      requires Valid()
      modifies this, board
      ensures Valid()
      ensures !old(currentTurn) ==> unchanged(this) && unchanged(board)
      ensures old(currentTurn) && old(isMoving) && hit.None? ==>
                selected.None? && !isMoving && currentTurn && unchanged(board) && outbox == old(outbox)
      ensures old(currentTurn) && old(isMoving) && hit.Some? ==>
                selected.None? && !isMoving && !currentTurn
      ensures old(currentTurn) && !old(isMoving) ==> currentTurn && unchanged(board) && outbox == old(outbox)
      ensures old(currentTurn) && !old(isMoving) && hit.None? ==> selected.None? && !isMoving
      ensures side == old(side)
    {
      if !currentTurn {
        return;
      }
      if isMoving {
        if hit.None? {
          Unselect();
          return;
        }
        SetCurrentTurn(false);
        MovePiece(selected.value.coord, hit.value);
        Unselect();
        return;
      }
      Unselect();
      if hit.None? {
        return;
      }
      SelectPiece(hit.value);
    }
  }
}
