/**
 * The piece record of the client (public/src/Game/Piece.js) and the lookup
 * every move generator makes in the shared piece list (`CheckPieceAtCoord`).
 */
module Pieces {
  import opened Wrappers
  import opened Coordinates

  datatype Side = White | Black

  function Opponent(s: Side): Side {
    if s == White then Black else White
  }

  /** The `_type` of a piece: the subclass it was built from. */
  datatype Kind = Pawn | Rook | Knight | Bishop | Queen | King

  /** `_type`, `_side`, `_coordinate` and `_has_moved`; meshes are not modelled. */
  datatype Piece = Piece(kind: Kind, side: Side, coord: string, hasMoved: bool)

  /** Array.prototype.findIndex by coordinate: the first position holding `c`, or -1. */
  function FindIndex(pieces: seq<Piece>, c: string): (i: int)
    ensures -1 <= i < |pieces|
    ensures 0 <= i ==> pieces[i].coord == c
  {
    if pieces == [] then -1
    else if pieces[0].coord == c then 0
    else
      var i := FindIndex(pieces[1..], c);
      if i < 0 then -1 else i + 1
  }

  /** FindIndex is -1 exactly when no piece stands on `c`, and otherwise the first position of one that does. */
  lemma {:induction false} FindIndexSpec(pieces: seq<Piece>, c: string)
    ensures FindIndex(pieces, c) == -1 <==> forall k :: 0 <= k < |pieces| ==> pieces[k].coord != c
    ensures 0 <= FindIndex(pieces, c) ==>
              pieces[FindIndex(pieces, c)].coord == c && forall k :: 0 <= k < FindIndex(pieces, c) ==> pieces[k].coord != c
  {
    if pieces != [] && pieces[0].coord != c {
      FindIndexSpec(pieces[1..], c);
      forall k | 0 < k < |pieces| ensures pieces[k] == pieces[1..][k - 1] { }
    }
  }

  /** The first position holding `c` is what FindIndex returns. */
  lemma FindIndexIs(pieces: seq<Piece>, c: string, j: int)
    requires 0 <= j < |pieces| && pieces[j].coord == c
    requires forall k :: 0 <= k < j ==> pieces[k].coord != c
    ensures FindIndex(pieces, c) == j
  {
    FindIndexSpec(pieces, c);
  }

  /** CheckPieceAtCoord (Array.prototype.find): the first piece standing on `c`, if any. */
  function PieceAt(pieces: seq<Piece>, c: string): (r: Option<Piece>)
    ensures r.Some? ==> r.value.coord == c && r.value in pieces
  {
    var i := FindIndex(pieces, c);
    if i < 0 then None else Some(pieces[i])
  }

  /** PieceAt finds nothing exactly when no piece stands on `c`, and otherwise the first one that does. */
  lemma PieceAtFirst(pieces: seq<Piece>, c: string)
    ensures PieceAt(pieces, c).None? <==> forall k :: 0 <= k < |pieces| ==> pieces[k].coord != c
    ensures PieceAt(pieces, c).Some? ==>
              exists i :: 0 <= i < |pieces| && pieces[i] == PieceAt(pieces, c).value && pieces[i].coord == c &&
                          forall k :: 0 <= k < i ==> pieces[k].coord != c
  {
    FindIndexSpec(pieces, c);
  }

  /** Every piece stands on one of the 64 squares. */
  predicate OnSquares(pieces: seq<Piece>) {
    forall k :: 0 <= k < |pieces| ==> IsSquare(pieces[k].coord)
  }

  /** No two pieces share a coordinate. */
  predicate DistinctCoords(pieces: seq<Piece>) {
    forall i, j :: 0 <= i < j < |pieces| ==> pieces[i].coord != pieces[j].coord
  }

  /** `c` is empty or holds a piece of the other side: a square a piece of `side` may land on. */
  predicate NotFriendly(pieces: seq<Piece>, side: Side, c: string) {
    PieceAt(pieces, c).None? || PieceAt(pieces, c).value.side != side
  }

  /** On a board of distinct coordinates, the piece found at a coordinate is the only one there. */
  lemma PieceAtUnique(pieces: seq<Piece>, k: nat)
    requires DistinctCoords(pieces) && k < |pieces|
    ensures PieceAt(pieces, pieces[k].coord) == Some(pieces[k])
  {
    FindIndexSpec(pieces, pieces[k].coord);
  }
}
