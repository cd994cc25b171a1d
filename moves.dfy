/**
 * Move generation of the client (public/src/Game/Piece.js).
 *
 * Each generator of the source is a method that keeps the source's
 * step-by-step structure (look at the next square, stop at the edge or at a
 * piece, capture an enemy). Each method is proved equal to a specification
 * function (`Ray`, `ForwardMoves`, ...) whose properties are proved in
 * module MoveProperties. Generators take the shared piece list (`_pieces`)
 * as a value: they read it and change neither the list nor the piece.
 *
 * Every edge test of the source looks only at the side of the board the
 * walk is heading to (`i + y + 1 > 7` going up, `i + y + 1 < 0` going down,
 * and so on); the predicate Beyond states that test, so that the model also
 * agrees with the source for a piece whose own coordinate does not decode.
 */
module Moves {
  import opened Wrappers
  import opened Coordinates
  import opened Pieces

  // ---------------------------------------------------------------------
  // Specification

  /** The edge test of a step of (dx, dy) landing on (tx, ty): past the last file or rank in that direction. */
  predicate Beyond(tx: int, ty: int, dx: int, dy: int) {
    (dx > 0 && tx > 7) || (dx < 0 && tx < 0) || (dy > 0 && ty > 7) || (dy < 0 && ty < 0)
  }

  /**
   * One ray: from (x, y) take at most `n` steps of (dx, dy). An empty square
   * is a destination and the walk goes on; an occupied square stops the walk
   * and is a destination only when `capture` holds and it holds a piece of
   * the other side; the board edge stops the walk.
   */
  function Ray(pieces: seq<Piece>, side: Side, capture: bool, x: int, y: int, dx: int, dy: int, n: int): seq<string>
    decreases n
  {
    if n <= 0 || Beyond(x + dx, y + dy, dx, dy) then []
    else
      var c := CreateCoordinate(x + dx, y + dy);
      match PieceAt(pieces, c)
      case Some(q) => if capture && q.side != side then [c] else []
      case None => [c] + Ray(pieces, side, capture, x + dx, y + dy, dx, dy, n - 1)
  }

  /** The iteration count of `for (let i = 0; i < (steps ?? 8 - y + 1); i++)`. */
  function UpLimit(y: int, steps: Option<nat>): int {
    if steps.Some? then steps.value else 8 - y + 1
  }

  /**
   * The iteration count of
   * `for (let i = -2; i > (steps ? (steps * -1) - 1 : -(y + 1)) - 1; i--)`:
   * a step count of 0 is falsy there, so it means "up to the edge".
   */
  function DownLimit(y: int, steps: Option<nat>): int {
    if steps.Some? && steps.value != 0 then steps.value else y
  }

  /** The diagonal square a pawn may capture on: listed only when a piece of the other side stands there. */
  function Capture(pieces: seq<Piece>, side: Side, c: string): seq<string> {
    var q := PieceAt(pieces, c);
    if q.Some? && q.value.side != side then [c] else []
  }

  /** A pawn's two captures one row in direction dy, left before right. */
  function PawnCaptures(pieces: seq<Piece>, side: Side, x: int, y: int, dy: int): seq<string> {
    Capture(pieces, side, CreateCoordinate(x - 1, y + dy)) + Capture(pieces, side, CreateCoordinate(x + 1, y + dy))
  }

  function XOf(p: Piece): int { GetXYIndices(p.coord).0 }
  function YOf(p: Piece): int { GetXYIndices(p.coord).1 }

  /** GetPossibleForwardMoves: the up ray (no capture for a pawn), then a pawn's two up-diagonal captures. */
  function ForwardMoves(p: Piece, pieces: seq<Piece>, steps: Option<nat>): seq<string> {
    var x, y := XOf(p), YOf(p);
    Ray(pieces, p.side, p.kind != Pawn, x, y, 0, 1, UpLimit(y, steps))
    + (if p.kind == Pawn then PawnCaptures(pieces, p.side, x, y, 1) else [])
  }

  /** GetPossibleBackwardMoves: the down ray (no capture for a pawn), then a pawn's two down-diagonal captures. */
  function BackwardMoves(p: Piece, pieces: seq<Piece>, steps: Option<nat>): seq<string> {
    var x, y := XOf(p), YOf(p);
    Ray(pieces, p.side, p.kind != Pawn, x, y, 0, -1, DownLimit(y, steps))
    + (if p.kind == Pawn then PawnCaptures(pieces, p.side, x, y, -1) else [])
  }

  /** GetPossibleSidewayMoves: the right ray, then the left ray; both capture for every kind. */
  function SidewayMoves(p: Piece, pieces: seq<Piece>, steps: Option<nat>): seq<string> {
    var x, y := XOf(p), YOf(p);
    Ray(pieces, p.side, true, x, y, 1, 0, UpLimit(x, steps)) + Ray(pieces, p.side, true, x, y, -1, 0, DownLimit(x, steps))
  }

  function Take1(s: seq<string>): seq<string> { if s == [] then [] else s[..1] }
  function Drop1(s: seq<string>): seq<string> { if s == [] then [] else s[1..] }

  /** Alternate the elements of two lists, first a then b, until both are exhausted. */
  function Interleave(a: seq<string>, b: seq<string>): seq<string>
    decreases |a| + |b|
  {
    if a == [] && b == [] then [] else Take1(a) + Take1(b) + Interleave(Drop1(a), Drop1(b))
  }

  /**
   * GetPossibleDiagonalMoves: the up-right and up-left rays step by step in
   * alternation, then the down-right and down-left rays likewise.
   */
  function DiagonalMoves(p: Piece, pieces: seq<Piece>, steps: Option<nat>): seq<string> {
    var x, y := XOf(p), YOf(p);
    Interleave(Ray(pieces, p.side, true, x, y, 1, 1, UpLimit(y, steps)), Ray(pieces, p.side, true, x, y, -1, 1, UpLimit(y, steps)))
    + Interleave(Ray(pieces, p.side, true, x, y, 1, -1, DownLimit(y, steps)), Ray(pieces, p.side, true, x, y, -1, -1, DownLimit(y, steps)))
  }

  /**
   * One block of the diagonal loop, for the ray heading dx, with flag `open`:
   * when the flag is up and the column tx is not past the edge, look at
   * (tx, ty); an empty square is listed, a piece of the other side is listed
   * and lowers the flag, a piece of the same side only lowers it.
   */
  function Look(pieces: seq<Piece>, side: Side, tx: int, ty: int, dx: int, open: bool): (seq<string>, bool) {
    if !open || Beyond(tx, ty, dx, 0) then ([], open)
    else
      var c := CreateCoordinate(tx, ty);
      match PieceAt(pieces, c)
      case Some(q) => (if q.side != side then [c] else [], false)
      case None => ([c], true)
  }

  /**
   * The diagonal loop as the source runs it, from row cy on, with i rows
   * done: at most n more rows, stopping at the edge; in each row the block
   * of the right-hand ray (column x + 1 + i) and then that of the left-hand
   * ray (column x - 1 - i).
   */
  function DiagonalRows(pieces: seq<Piece>, side: Side, x: int, cy: int, dy: int, i: int,
                        openRight: bool, openLeft: bool, n: int): seq<string>
    decreases n
  {
    if n <= 0 || Beyond(x, cy + dy, 0, dy) then []
    else
      var right := Look(pieces, side, x + 1 + i, cy + dy, 1, openRight);
      var left := Look(pieces, side, x - 1 - i, cy + dy, -1, openLeft);
      right.0 + left.0 + DiagonalRows(pieces, side, x, cy + dy, dy, i + 1, right.1, left.1, n - 1)
  }

  /**
   * The test GetPossibleKnightMoves makes before it looks at a target: the
   * target is not past the edge in the direction of either component,
   * except that the (-2, -1) target is guarded by y >= 2 where
   * y >= 1 would do, so from the second rank it is never offered.
   */
  predicate KnightGuard(x: int, y: int, dx: int, dy: int) {
    !Beyond(x + dx, y + dy, dx, dy) && !(dx == -2 && dy == -1 && y < 2)
  }

  /** One knight target: listed when it passes the guard and holds no piece of the knight's side. */
  function KnightTarget(pieces: seq<Piece>, side: Side, x: int, y: int, dx: int, dy: int): seq<string> {
    var c := CreateCoordinate(x + dx, y + dy);
    if KnightGuard(x, y, dx, dy) && NotFriendly(pieces, side, c) then [c] else []
  }

  /** GetPossibleKnightMoves: the eight jumps in the order the source tries them. */
  function KnightMoves(p: Piece, pieces: seq<Piece>): (r: seq<string>)
    ensures |r| <= 8
  {
    var x, y := XOf(p), YOf(p);
    (KnightTarget(pieces, p.side, x, y, -1, 2) + KnightTarget(pieces, p.side, x, y, 1, 2))
    + (KnightTarget(pieces, p.side, x, y, -1, -2) + KnightTarget(pieces, p.side, x, y, 1, -2))
    + (KnightTarget(pieces, p.side, x, y, 2, -1) + KnightTarget(pieces, p.side, x, y, 2, 1))
    + (KnightTarget(pieces, p.side, x, y, -2, -1) + KnightTarget(pieces, p.side, x, y, -2, 1))
  }

  /** GetPossibleMoves of each subclass. */
  function PossibleMoves(p: Piece, pieces: seq<Piece>): seq<string> {
    match p.kind
    case Pawn =>
      var steps := Some(if p.hasMoved then 1 else 2);
      if p.side == White then ForwardMoves(p, pieces, steps) else BackwardMoves(p, pieces, steps)
    case Rook => ForwardMoves(p, pieces, None) + BackwardMoves(p, pieces, None) + SidewayMoves(p, pieces, None)
    case Knight => KnightMoves(p, pieces)
    case Bishop => DiagonalMoves(p, pieces, None)
    case Queen =>
      ForwardMoves(p, pieces, None) + BackwardMoves(p, pieces, None) + SidewayMoves(p, pieces, None) + DiagonalMoves(p, pieces, None)
    case King =>
      ForwardMoves(p, pieces, Some(1)) + BackwardMoves(p, pieces, Some(1)) + SidewayMoves(p, pieces, Some(1)) + DiagonalMoves(p, pieces, Some(1))
  }

  // ---------------------------------------------------------------------
  // Proof steps

  /**
   * The loop step of a ray walker: when `moves` followed by the rest of the
   * ray is the whole ray, then after looking at the next square either the
   * walk goes on from it or `moves`, extended by a capture, is the whole ray.
   */
  lemma RayAdvance(pieces: seq<Piece>, side: Side, capture: bool, x: int, y: int, dx: int, dy: int, n: int,
                   moves: seq<string>, ray: seq<string>)
    requires n > 0 && !Beyond(x + dx, y + dy, dx, dy)
    requires moves + Ray(pieces, side, capture, x, y, dx, dy, n) == ray
    ensures var c := CreateCoordinate(x + dx, y + dy);
      if PieceAt(pieces, c).None? then (moves + [c]) + Ray(pieces, side, capture, x + dx, y + dy, dx, dy, n - 1) == ray
      else (if capture && PieceAt(pieces, c).value.side != side then moves + [c] else moves) == ray
  {
    var c := CreateCoordinate(x + dx, y + dy);
    var rest := Ray(pieces, side, capture, x + dx, y + dy, dx, dy, n - 1);
    if PieceAt(pieces, c).None? {
      assert (moves + [c]) + rest == moves + ([c] + rest);
    }
  }

  /** The capturing ray from (x, y) heading (dx, dy) while its flag is up, nothing once it is down. */
  function OpenRay(pieces: seq<Piece>, side: Side, open: bool, x: int, y: int, dx: int, dy: int, n: int): seq<string> {
    if open then Ray(pieces, side, true, x, y, dx, dy, n) else []
  }

  /**
   * One block of the diagonal loop against the capturing ray it walks, from
   * (cx, cy) to column tx: what the block lists is the head of the ray
   * (nothing once the flag is down), and the ray from the block's square
   * onwards, while the flag stays up, is its tail. A column past the edge
   * stays past it, so the ray is empty from there on.
   */
  lemma LookStep(pieces: seq<Piece>, side: Side, cx: int, cy: int, dx: int, dy: int, n: int, open: bool, tx: int)
    requires n > 0 && !Beyond(cx, cy + dy, 0, dy) && tx == cx + dx
    ensures var r := OpenRay(pieces, side, open, cx, cy, dx, dy, n);
      var b := Look(pieces, side, tx, cy + dy, dx, open);
      Take1(r) == b.0 && Drop1(r) == OpenRay(pieces, side, b.1, tx, cy + dy, dx, dy, n - 1)
  {
  }

  /** Interleaving two lists lists their heads and then the interleaving of their tails. */
  lemma InterleaveCons(a: seq<string>, b: seq<string>, headA: seq<string>, headB: seq<string>,
                       tailA: seq<string>, tailB: seq<string>, rest: seq<string>)
    requires headA == Take1(a) && headB == Take1(b) && tailA == Drop1(a) && tailB == Drop1(b)
    requires rest == Interleave(tailA, tailB)
    ensures Interleave(a, b) == headA + headB + rest
  {
  }

  lemma RowsUnfold(pieces: seq<Piece>, side: Side, x: int, cy: int, dy: int, i: int, openRight: bool, openLeft: bool, n: int)
    requires n > 0 && !Beyond(x, cy + dy, 0, dy)
    ensures var right := Look(pieces, side, x + 1 + i, cy + dy, 1, openRight);
      var left := Look(pieces, side, x - 1 - i, cy + dy, -1, openLeft);
      DiagonalRows(pieces, side, x, cy, dy, i, openRight, openLeft, n)
      == right.0 + left.0 + DiagonalRows(pieces, side, x, cy + dy, dy, i + 1, right.1, left.1, n - 1)
  {
  }

  /**
   * The diagonal loop lists the two diagonal rays in alternation: a row
   * contributes the next square of each ray whose flag is up, and a flag goes
   * down exactly where its ray ends at a piece. Here rx and lx are the columns
   * the two rays have reached after i rows.
   */
  lemma {:induction false} DiagonalRowsAreRays(pieces: seq<Piece>, side: Side, x: int, cy: int, dy: int, i: int,
                                               rx: int, lx: int, openRight: bool, openLeft: bool, n: int)
    requires rx == x + i && lx == x - i
    ensures DiagonalRows(pieces, side, x, cy, dy, i, openRight, openLeft, n)
         == Interleave(OpenRay(pieces, side, openRight, rx, cy, 1, dy, n), OpenRay(pieces, side, openLeft, lx, cy, -1, dy, n))
    decreases n
  {
    var ra := OpenRay(pieces, side, openRight, rx, cy, 1, dy, n);
    var rb := OpenRay(pieces, side, openLeft, lx, cy, -1, dy, n);
    if n <= 0 || Beyond(x, cy + dy, 0, dy) {
      assert ra == [] && rb == [];
    } else {
      var right := Look(pieces, side, x + 1 + i, cy + dy, 1, openRight);
      var left := Look(pieces, side, x - 1 - i, cy + dy, -1, openLeft);
      var ta := OpenRay(pieces, side, right.1, x + 1 + i, cy + dy, 1, dy, n - 1);
      var tb := OpenRay(pieces, side, left.1, x - 1 - i, cy + dy, -1, dy, n - 1);
      LookStep(pieces, side, rx, cy, 1, dy, n, openRight, x + 1 + i);
      assert Take1(ra) == right.0 && Drop1(ra) == ta;
      LookStep(pieces, side, lx, cy, -1, dy, n, openLeft, x - 1 - i);
      assert Take1(rb) == left.0 && Drop1(rb) == tb;
      var next := DiagonalRows(pieces, side, x, cy + dy, dy, i + 1, right.1, left.1, n - 1);
      RowsUnfold(pieces, side, x, cy, dy, i, openRight, openLeft, n);
      DiagonalRowsAreRays(pieces, side, x, cy + dy, dy, i + 1, x + 1 + i, x - 1 - i, right.1, left.1, n - 1);
      assert next == Interleave(ta, tb);
      InterleaveCons(ra, rb, right.0, left.0, ta, tb, next);
    }
  }

  /** The diagonal loop from the piece's own row lists its two rays in alternation. */
  lemma DiagonalRowsFromStart(pieces: seq<Piece>, side: Side, x: int, y: int, dy: int, n: int)
    ensures DiagonalRows(pieces, side, x, y, dy, 0, true, true, n)
         == Interleave(Ray(pieces, side, true, x, y, 1, dy, n), Ray(pieces, side, true, x, y, -1, dy, n))
  {
    DiagonalRowsAreRays(pieces, side, x, y, dy, 0, x, x, true, true, n);
  }

  lemma AppendAssoc(a: seq<string>, b: seq<string>, c: seq<string>, d: seq<string>)
    ensures a + b + c + d == a + (b + c + d)
  {
  }

  /** Once the row count is used up or the next row is past the edge, the diagonal loop lists nothing more. */
  lemma RowsDone(pieces: seq<Piece>, side: Side, x: int, cy: int, dy: int, i: int,
                 openRight: bool, openLeft: bool, n: int, moves: seq<string>, whole: seq<string>)
    requires n <= 0 || Beyond(x, cy + dy, 0, dy)
    requires moves + DiagonalRows(pieces, side, x, cy, dy, i, openRight, openLeft, n) == whole
    ensures moves == whole
  {
    assert moves + [] == moves;
  }

  lemma RowsAdvance(pieces: seq<Piece>, side: Side, x: int, cy: int, dy: int, i: int,
                    openRight: bool, openLeft: bool, n: int, moves: seq<string>, whole: seq<string>)
    requires n > 0 && !Beyond(x, cy + dy, 0, dy)
    requires moves + DiagonalRows(pieces, side, x, cy, dy, i, openRight, openLeft, n) == whole
    ensures var right := Look(pieces, side, x + 1 + i, cy + dy, 1, openRight);
      var left := Look(pieces, side, x - 1 - i, cy + dy, -1, openLeft);
      moves + right.0 + left.0 + DiagonalRows(pieces, side, x, cy + dy, dy, i + 1, right.1, left.1, n - 1) == whole
  {
    var right := Look(pieces, side, x + 1 + i, cy + dy, 1, openRight);
    var left := Look(pieces, side, x - 1 - i, cy + dy, -1, openLeft);
    var next := DiagonalRows(pieces, side, x, cy + dy, dy, i + 1, right.1, left.1, n - 1);
    RowsUnfold(pieces, side, x, cy, dy, i, openRight, openLeft, n);
    AppendAssoc(moves, right.0, left.0, next);
  }

  // ---------------------------------------------------------------------
  // The generators

  /**
   * The straight walker loop shared by GetPossibleForwardMoves, ...Backward
   * and ...Sideway: at most `count` steps of (dx, dy) from (x, y), breaking
   * past the edge and at the first piece, which is listed when `capture`
   * holds and it is of the other side.
   */
  method WalkRay(pieces: seq<Piece>, side: Side, capture: bool, x: int, y: int, dx: int, dy: int, count: int)
    returns (moves: seq<string>)
    ensures moves == Ray(pieces, side, capture, x, y, dx, dy, count)
  {
    ghost var ray := Ray(pieces, side, capture, x, y, dx, dy, count);
    moves := [];
    var cx, cy := x, y;
    var i := 0;
    while i < count
      invariant moves + Ray(pieces, side, capture, cx, cy, dx, dy, count - i) == ray
    {
      if Beyond(cx + dx, cy + dy, dx, dy) { break; }
      var coord := CreateCoordinate(cx + dx, cy + dy);
      var piece := PieceAt(pieces, coord);
      RayAdvance(pieces, side, capture, cx, cy, dx, dy, count - i, moves, ray);
      if piece.Some? {
        if piece.value.side != side && capture { moves := moves + [coord]; }
        break;
      }
      moves := moves + [coord];
      cx, cy := cx + dx, cy + dy;
      i := i + 1;
    }
  }

  /** The "Pawn Capturing" block: the squares left and right one row in direction dy, each when an enemy stands there. */
  method PawnCapturing(pieces: seq<Piece>, side: Side, x: int, y: int, dy: int) returns (moves: seq<string>)
    ensures moves == PawnCaptures(pieces, side, x, y, dy)
  {
    var left := CreateCoordinate(x - 1, y + dy);
    var right := CreateCoordinate(x + 1, y + dy);
    var pieceLeft := PieceAt(pieces, left);
    var pieceRight := PieceAt(pieces, right);
    moves := [];
    if pieceLeft.Some? && pieceLeft.value.side != side { moves := moves + [left]; }
    if pieceRight.Some? && pieceRight.value.side != side { moves := moves + [right]; }
  }

  method GetPossibleForwardMoves(p: Piece, pieces: seq<Piece>, steps: Option<nat>) returns (moves: seq<string>)
    ensures moves == ForwardMoves(p, pieces, steps)
  {
    var x, y := XOf(p), YOf(p);
    var count := if steps.Some? then steps.value else 8 - y + 1;
    assert count == UpLimit(y, steps);
    moves := WalkRay(pieces, p.side, p.kind != Pawn, x, y, 0, 1, count);
    if p.kind == Pawn {
      var captures := PawnCapturing(pieces, p.side, x, y, 1);
      moves := moves + captures;
    }
  }

  method GetPossibleBackwardMoves(p: Piece, pieces: seq<Piece>, steps: Option<nat>) returns (moves: seq<string>)
    ensures moves == BackwardMoves(p, pieces, steps)
  {
    var x, y := XOf(p), YOf(p);
    // the loop runs i = -2, -3, ... while i > last
    var last := (if steps.Some? && steps.value != 0 then (steps.value * -1) - 1 else -(y + 1)) - 1;
    assert -2 - last == DownLimit(y, steps);
    moves := WalkRay(pieces, p.side, p.kind != Pawn, x, y, 0, -1, -2 - last);
    if p.kind == Pawn {
      var captures := PawnCapturing(pieces, p.side, x, y, -1);
      moves := moves + captures;
    }
  }

  method GetPossibleSidewayMoves(p: Piece, pieces: seq<Piece>, steps: Option<nat>) returns (moves: seq<string>)
    ensures moves == SidewayMoves(p, pieces, steps)
  {
    var x, y := XOf(p), YOf(p);
    var count := if steps.Some? then steps.value else 8 - x + 1;
    var right := WalkRay(pieces, p.side, true, x, y, 1, 0, count);
    var last := (if steps.Some? && steps.value != 0 then (steps.value * -1) - 1 else -(x + 1)) - 1;
    assert count == UpLimit(x, steps) && -2 - last == DownLimit(x, steps);
    var left := WalkRay(pieces, p.side, true, x, y, -1, 0, -2 - last);
    moves := right + left;
  }

  /**
   * The diagonal walker loop of GetPossibleDiagonalMoves: rows y + dy,
   * y + 2dy, ... up to `count` of them, breaking past the edge; in each row
   * the block of the right-hand ray and then that of the left-hand ray.
   */
  method WalkDiagonals(pieces: seq<Piece>, side: Side, x: int, y: int, dy: int, count: int) returns (moves: seq<string>)
    ensures moves == DiagonalRows(pieces, side, x, y, dy, 0, true, true, count)
  {
    moves := [];
    var openRight, openLeft := true, true;
    var cy := y;
    var i := 0;
    ghost var rem := count;
    ghost var whole := DiagonalRows(pieces, side, x, y, dy, 0, true, true, count);
    while i < count
      invariant rem == count - i
      invariant moves + DiagonalRows(pieces, side, x, cy, dy, i, openRight, openLeft, rem) == whole
    {
      if Beyond(x, cy + dy, 0, dy) {
        RowsDone(pieces, side, x, cy, dy, i, openRight, openLeft, rem, moves, whole);
        break;
      }
      RowsAdvance(pieces, side, x, cy, dy, i, openRight, openLeft, rem, moves, whole);
      var right := Look(pieces, side, x + 1 + i, cy + dy, 1, openRight);
      var left := Look(pieces, side, x - 1 - i, cy + dy, -1, openLeft);
      moves := moves + right.0 + left.0;
      openRight, openLeft := right.1, left.1;
      cy, i, rem := cy + dy, i + 1, rem - 1;
    }
    RowsDone(pieces, side, x, cy, dy, i, openRight, openLeft, rem, moves, whole);
  }

  /** The two halves of the diagonal loop, from the piece's row up and down, make up DiagonalMoves. */
  lemma DiagonalHalves(p: Piece, pieces: seq<Piece>, steps: Option<nat>, up: seq<string>, down: seq<string>)
    requires up == DiagonalRows(pieces, p.side, XOf(p), YOf(p), 1, 0, true, true, UpLimit(YOf(p), steps))
    requires down == DiagonalRows(pieces, p.side, XOf(p), YOf(p), -1, 0, true, true, DownLimit(YOf(p), steps))
    ensures up + down == DiagonalMoves(p, pieces, steps)
  {
    DiagonalRowsFromStart(pieces, p.side, XOf(p), YOf(p), 1, UpLimit(YOf(p), steps));
    DiagonalRowsFromStart(pieces, p.side, XOf(p), YOf(p), -1, DownLimit(YOf(p), steps));
  }

  method GetPossibleDiagonalMoves(p: Piece, pieces: seq<Piece>, steps: Option<nat>) returns (moves: seq<string>)
    ensures moves == DiagonalMoves(p, pieces, steps)
  {
    var x, y := XOf(p), YOf(p);
    var count := if steps.Some? then steps.value else 8 - y + 1;
    var up := WalkDiagonals(pieces, p.side, x, y, 1, count);
    var last := (if steps.Some? && steps.value != 0 then (steps.value * -1) - 1 else -(y + 1)) - 1;
    var down := WalkDiagonals(pieces, p.side, x, y, -1, -2 - last);
    assert count == UpLimit(y, steps) && -2 - last == DownLimit(y, steps);
    DiagonalHalves(p, pieces, steps, up, down);
    moves := up + down;
  }

  /**
   * The inner block of GetPossibleKnightMoves for the jump (dx, dy): list
   * the target unless a piece of `side` stands there.
   */
  method KnightLand(pieces: seq<Piece>, side: Side, x: int, y: int, dx: int, dy: int) returns (moves: seq<string>)
    requires KnightGuard(x, y, dx, dy)
    ensures moves == KnightTarget(pieces, side, x, y, dx, dy)
  {
    var coord := CreateCoordinate(x + dx, y + dy);
    var piece := PieceAt(pieces, coord);
    if piece.Some? {
      moves := if piece.value.side != side then [coord] else [];
    } else {
      moves := [coord];
    }
  }

  /** The "Forward" section of GetPossibleKnightMoves: the jumps (-1, 2) and (1, 2). */
  method KnightForward(pieces: seq<Piece>, side: Side, x: int, y: int) returns (moves: seq<string>)
    ensures moves == KnightTarget(pieces, side, x, y, -1, 2) + KnightTarget(pieces, side, x, y, 1, 2)
  {
    var left, right := [], [];
    if !(y + 2 > 7) {
      if x - 1 > -1 { left := KnightLand(pieces, side, x, y, -1, 2); }
      if x + 1 < 8 { right := KnightLand(pieces, side, x, y, 1, 2); }
    }
    moves := left + right;
  }

  /** The "Backward" section: the jumps (-1, -2) and (1, -2). */
  method KnightBackward(pieces: seq<Piece>, side: Side, x: int, y: int) returns (moves: seq<string>)
    ensures moves == KnightTarget(pieces, side, x, y, -1, -2) + KnightTarget(pieces, side, x, y, 1, -2)
  {
    var left, right := [], [];
    if !(y - 2 < 0) {
      if x - 1 > -1 { left := KnightLand(pieces, side, x, y, -1, -2); }
      if x + 1 < 8 { right := KnightLand(pieces, side, x, y, 1, -2); }
    }
    moves := left + right;
  }

  /** The "Right" section: the jumps (2, -1) and (2, 1). */
  method KnightRight(pieces: seq<Piece>, side: Side, x: int, y: int) returns (moves: seq<string>)
    ensures moves == KnightTarget(pieces, side, x, y, 2, -1) + KnightTarget(pieces, side, x, y, 2, 1)
  {
    var down, up := [], [];
    if !(x + 2 > 7) {
      if y - 1 > -1 { down := KnightLand(pieces, side, x, y, 2, -1); }
      if y + 1 < 8 { up := KnightLand(pieces, side, x, y, 2, 1); }
    }
    moves := down + up;
  }

  /** The "Left" section: the jumps (-2, -1), guarded by y - 2 >= 0, and (-2, 1). */
  method KnightLeft(pieces: seq<Piece>, side: Side, x: int, y: int) returns (moves: seq<string>)
    ensures moves == KnightTarget(pieces, side, x, y, -2, -1) + KnightTarget(pieces, side, x, y, -2, 1)
  {
    var down, up := [], [];
    if !(x - 2 < 0) {
      if !(y - 2 < 0) { down := KnightLand(pieces, side, x, y, -2, -1); }
      if !(y + 1 > 7) { up := KnightLand(pieces, side, x, y, -2, 1); }
    }
    moves := down + up;
  }

  method GetPossibleKnightMoves(p: Piece, pieces: seq<Piece>) returns (moves: seq<string>)
    ensures moves == KnightMoves(p, pieces)
  {
    var x, y := XOf(p), YOf(p);
    var forward := KnightForward(pieces, p.side, x, y);
    var backward := KnightBackward(pieces, p.side, x, y);
    var right := KnightRight(pieces, p.side, x, y);
    var left := KnightLeft(pieces, p.side, x, y);
    moves := forward + backward + right + left;
  }

  /** GetPossibleMoves of the piece's subclass. */
  method GetPossibleMoves(p: Piece, pieces: seq<Piece>) returns (moves: seq<string>)
    ensures moves == PossibleMoves(p, pieces)
  {
    match p.kind
    case Pawn =>
      var steps := Some(if p.hasMoved then 1 else 2);
      if p.side == White {
        moves := GetPossibleForwardMoves(p, pieces, steps);
      } else {
        moves := GetPossibleBackwardMoves(p, pieces, steps);
      }
    case Rook =>
      var f := GetPossibleForwardMoves(p, pieces, None);
      var b := GetPossibleBackwardMoves(p, pieces, None);
      var s := GetPossibleSidewayMoves(p, pieces, None);
      moves := f + b + s;
    case Knight =>
      moves := GetPossibleKnightMoves(p, pieces);
    case Bishop =>
      moves := GetPossibleDiagonalMoves(p, pieces, None);
    case Queen =>
      var f := GetPossibleForwardMoves(p, pieces, None);
      var b := GetPossibleBackwardMoves(p, pieces, None);
      var s := GetPossibleSidewayMoves(p, pieces, None);
      var d := GetPossibleDiagonalMoves(p, pieces, None);
      moves := f + b + s + d;
    case King =>
      var f := GetPossibleForwardMoves(p, pieces, Some(1));
      var b := GetPossibleBackwardMoves(p, pieces, Some(1));
      var s := GetPossibleSidewayMoves(p, pieces, Some(1));
      var d := GetPossibleDiagonalMoves(p, pieces, Some(1));
      moves := f + b + s + d;
  }
}
