/**
 * What the move generators of public/src/Game/Piece.js promise, proved of
 * the specification functions of module Moves (and so, through their
 * ensures clauses, of the generator methods).
 *
 * The rays are characterised square by square (RayShape, RayStops); from
 * that follow, for each kind of piece, the geometry of its destinations,
 * that none of them holds a piece of the mover's side, and that all of them
 * are on the board.
 */
module MoveProperties {
  import opened Wrappers
  import opened Coordinates
  import opened Pieces
  import opened Moves

  // ---------------------------------------------------------------------
  // Rays

  /** The index k steps of d away from x. */
  function Along(x: int, d: int, k: nat): int
    decreases k
  {
    if k == 0 then x else Along(x, d, k - 1) + d
  }

  /** The coordinate k steps of (dx, dy) away from (x, y). */
  function Sq(x: int, y: int, dx: int, dy: int, k: nat): string {
    CreateCoordinate(Along(x, dx, k), Along(y, dy, k))
  }

  /** The square k steps of (dx, dy) away is not past the edge in that direction. */
  predicate Within(x: int, y: int, dx: int, dy: int, k: nat) {
    !Beyond(Along(x, dx, k), Along(y, dy, k), dx, dy)
  }

  /** Walking k steps from the first step is walking k + 1 steps from the start. */
  lemma {:induction false} Shift(x: int, d: int, k: nat)
    ensures Along(x + d, d, k) == Along(x, d, k + 1)
    decreases k
  {
    if k > 0 { Shift(x, d, k - 1); }
  }

  /** The k-th element of r is k + 1 steps of (dx, dy) from (x, y), and not past the edge. */
  predicate OnLine(r: seq<string>, x: int, y: int, dx: int, dy: int) {
    forall k :: 0 <= k < |r| ==> r[k] == Sq(x, y, dx, dy, k + 1) && Within(x, y, dx, dy, k + 1)
  }

  /** A ray lists at most n squares. */
  lemma {:induction false} RayLength(pieces: seq<Piece>, side: Side, capture: bool, x: int, y: int, dx: int, dy: int, n: int)
    ensures |Ray(pieces, side, capture, x, y, dx, dy, n)| <= (if n < 0 then 0 else n)
    decreases n
  {
    if n > 0 && !Beyond(x + dx, y + dy, dx, dy) {
      RayLength(pieces, side, capture, x + dx, y + dy, dx, dy, n - 1);
    }
  }

  /** Every element of r but the last is an empty square. */
  predicate ClearBeforeLast(pieces: seq<Piece>, r: seq<string>) {
    forall k :: 0 <= k < |r| - 1 ==> PieceAt(pieces, r[k]).None?
  }

  /** The last element of r is empty or, when `capture` holds, holds a piece of the other side. */
  predicate LastLandable(pieces: seq<Piece>, side: Side, capture: bool, r: seq<string>) {
    |r| > 0 ==> NotFriendly(pieces, side, r[|r| - 1]) && (PieceAt(pieces, r[|r| - 1]).Some? ==> capture)
  }

  /** The squares of a ray lie on its line, in order. */
  lemma {:induction false} RayLine(pieces: seq<Piece>, side: Side, capture: bool, x: int, y: int, dx: int, dy: int, n: int)
    ensures OnLine(Ray(pieces, side, capture, x, y, dx, dy, n), x, y, dx, dy)
    decreases n
  {
    if n > 0 && !Beyond(x + dx, y + dy, dx, dy) {
      var c := CreateCoordinate(x + dx, y + dy);
      if PieceAt(pieces, c).None? {
        RayLine(pieces, side, capture, x + dx, y + dy, dx, dy, n - 1);
        ConsOnLine(c, Ray(pieces, side, capture, x + dx, y + dy, dx, dy, n - 1), x, y, dx, dy);
      } else {
        ConsOnLine(c, [], x, y, dx, dy);
      }
    }
  }

  /** Putting the first step of the line in front of a list on the line from that step gives a list on the line. */
  lemma ConsOnLine(c: string, t: seq<string>, x: int, y: int, dx: int, dy: int)
    requires c == CreateCoordinate(x + dx, y + dy) && !Beyond(x + dx, y + dy, dx, dy)
    requires OnLine(t, x + dx, y + dy, dx, dy)
    ensures OnLine([c] + t, x, y, dx, dy)
  {
    var r := [c] + t;
    assert Along(x, dx, 1) == x + dx && Along(y, dy, 1) == y + dy;
    forall k | 0 < k < |r| ensures r[k] == Sq(x, y, dx, dy, k + 1) && Within(x, y, dx, dy, k + 1) {
      assert r[k] == t[k - 1];
      Shift(x, dx, k);
      Shift(y, dy, k);
    }
  }

  /** Every square of a ray but the last is empty. */
  lemma {:induction false} RayClear(pieces: seq<Piece>, side: Side, capture: bool, x: int, y: int, dx: int, dy: int, n: int)
    ensures ClearBeforeLast(pieces, Ray(pieces, side, capture, x, y, dx, dy, n))
    decreases n
  {
    if n > 0 && !Beyond(x + dx, y + dy, dx, dy) {
      var c := CreateCoordinate(x + dx, y + dy);
      if PieceAt(pieces, c).None? {
        RayClear(pieces, side, capture, x + dx, y + dy, dx, dy, n - 1);
        ConsClear(pieces, c, Ray(pieces, side, capture, x + dx, y + dy, dx, dy, n - 1));
      }
    }
  }

  /** An empty square in front of a list whose squares but the last are empty gives such a list. */
  lemma ConsClear(pieces: seq<Piece>, c: string, t: seq<string>)
    requires PieceAt(pieces, c).None? && ClearBeforeLast(pieces, t)
    ensures ClearBeforeLast(pieces, [c] + t)
  {
    var r := [c] + t;
    forall k | 0 < k < |r| - 1 ensures PieceAt(pieces, r[k]).None? {
      assert r[k] == t[k - 1];
    }
  }

  /** The last square of a ray is empty or, when the ray captures, holds a piece of the other side. */
  lemma {:induction false} RayLast(pieces: seq<Piece>, side: Side, capture: bool, x: int, y: int, dx: int, dy: int, n: int)
    ensures LastLandable(pieces, side, capture, Ray(pieces, side, capture, x, y, dx, dy, n))
    decreases n
  {
    if n > 0 && !Beyond(x + dx, y + dy, dx, dy) {
      var c := CreateCoordinate(x + dx, y + dy);
      if PieceAt(pieces, c).None? {
        RayLast(pieces, side, capture, x + dx, y + dy, dx, dy, n - 1);
        ConsLast(pieces, side, capture, c, Ray(pieces, side, capture, x + dx, y + dy, dx, dy, n - 1));
      }
    }
  }

  /** An empty square in front of a list keeps what its last element is. */
  lemma ConsLast(pieces: seq<Piece>, side: Side, capture: bool, c: string, t: seq<string>)
    requires PieceAt(pieces, c).None? && LastLandable(pieces, side, capture, t)
    ensures LastLandable(pieces, side, capture, [c] + t)
  {
    if |t| > 0 { assert ([c] + t)[|t|] == t[|t| - 1]; }
  }

  /**
   * A ray is the line of squares from (x, y) in its direction, at most n of
   * them and none past the edge; every square but the last is empty; the
   * last is empty or, when the ray captures, holds a piece of the other side.
   */
  lemma RayShape(pieces: seq<Piece>, side: Side, capture: bool, x: int, y: int, dx: int, dy: int, n: int)
    ensures |Ray(pieces, side, capture, x, y, dx, dy, n)| <= (if n < 0 then 0 else n)
    ensures OnLine(Ray(pieces, side, capture, x, y, dx, dy, n), x, y, dx, dy)
    ensures ClearBeforeLast(pieces, Ray(pieces, side, capture, x, y, dx, dy, n))
    ensures LastLandable(pieces, side, capture, Ray(pieces, side, capture, x, y, dx, dy, n))
  {
    RayLength(pieces, side, capture, x, y, dx, dy, n);
    RayLine(pieces, side, capture, x, y, dx, dy, n);
    RayClear(pieces, side, capture, x, y, dx, dy, n);
    RayLast(pieces, side, capture, x, y, dx, dy, n);
  }

  /**
   * A list r shorter than the step limit n ends where a walk along the line
   * must stop: its last square holds a piece, or the next square of the line
   * is past the edge or holds one.
   */
  predicate Stopped(pieces: seq<Piece>, r: seq<string>, x: int, y: int, dx: int, dy: int, n: int) {
    |r| < n ==> (|r| > 0 && PieceAt(pieces, r[|r| - 1]).Some?)
                || !Within(x, y, dx, dy, |r| + 1)
                || PieceAt(pieces, Sq(x, y, dx, dy, |r| + 1)).Some?
  }

  /**
   * A ray that is shorter than its step limit stopped at a piece: either its
   * last square holds one, or the next square of the line is past the edge
   * or holds one.
   */
  lemma {:induction false} RayStops(pieces: seq<Piece>, side: Side, capture: bool, x: int, y: int, dx: int, dy: int, n: int)
    ensures Stopped(pieces, Ray(pieces, side, capture, x, y, dx, dy, n), x, y, dx, dy, n)
    decreases n
  {
    assert Along(x, dx, 1) == x + dx && Along(y, dy, 1) == y + dy;
    if n > 0 && !Beyond(x + dx, y + dy, dx, dy) {
      var c := CreateCoordinate(x + dx, y + dy);
      if PieceAt(pieces, c).None? {
        RayStops(pieces, side, capture, x + dx, y + dy, dx, dy, n - 1);
        ConsStopped(pieces, c, Ray(pieces, side, capture, x + dx, y + dy, dx, dy, n - 1), x, y, dx, dy, n);
      }
    }
  }

  /** An empty first step in front of a list that stopped where a walk from that step must stop gives such a list. */
  lemma ConsStopped(pieces: seq<Piece>, c: string, t: seq<string>, x: int, y: int, dx: int, dy: int, n: int)
    requires c == CreateCoordinate(x + dx, y + dy) && PieceAt(pieces, c).None?
    requires Stopped(pieces, t, x + dx, y + dy, dx, dy, n - 1)
    ensures Stopped(pieces, [c] + t, x, y, dx, dy, n)
  {
    var r := [c] + t;
    Shift(x, dx, |t| + 1);
    Shift(y, dy, |t| + 1);
    if |t| > 0 { assert r[|r| - 1] == t[|t| - 1]; }
  }

  /** Steps of a non-negative d never decrease the index, steps of a non-positive d never increase it. */
  lemma {:induction false} AlongMonotone(x: int, d: int, k: nat)
    ensures d >= 0 ==> Along(x, d, k) >= x
    ensures d <= 0 ==> Along(x, d, k) <= x
    decreases k
  {
    if k > 0 { AlongMonotone(x, d, k - 1); }
  }

  /** k unit steps of d from x: x itself, x + k or x - k. */
  function Toward(x: int, d: int, k: int): int {
    if d == 0 then x else if d > 0 then x + k else x - k
  }

  lemma {:induction false} AlongUnit(x: int, d: int, k: nat)
    requires -1 <= d <= 1
    ensures Along(x, d, k) == Toward(x, d, k)
    decreases k
  {
    if k > 0 { AlongUnit(x, d, k - 1); }
  }

  /**
   * From a square, every element of a ray of a king-, rook- or
   * bishop-like direction is a square k unit steps along the line, for
   * some 1 <= k <= n, which the lemma returns.
   */
  lemma RayTarget(pieces: seq<Piece>, side: Side, capture: bool, x: int, y: int, dx: int, dy: int, n: int, c: string)
    returns (k: int)
    requires OnBoard(x, y) && -1 <= dx <= 1 && -1 <= dy <= 1
    requires c in Ray(pieces, side, capture, x, y, dx, dy, n)
    ensures 1 <= k <= n && IsSquare(c)
    ensures GetXYIndices(c) == (Toward(x, dx, k), Toward(y, dy, k))
  {
    var r := Ray(pieces, side, capture, x, y, dx, dy, n);
    RayShape(pieces, side, capture, x, y, dx, dy, n);
    var i :| 0 <= i < |r| && r[i] == c;
    k := i + 1;
    assert c == Sq(x, y, dx, dy, k) && Within(x, y, dx, dy, k);
    AlongMonotone(x, dx, k);
    AlongMonotone(y, dy, k);
    AlongUnit(x, dx, k);
    AlongUnit(y, dy, k);
    EncodeDecode(Along(x, dx, k), Along(y, dy, k));
  }

  /** No square of a ray holds a piece of the mover's side. */
  lemma RayNotFriendly(pieces: seq<Piece>, side: Side, capture: bool, x: int, y: int, dx: int, dy: int, n: int)
    ensures forall c :: c in Ray(pieces, side, capture, x, y, dx, dy, n) ==> NotFriendly(pieces, side, c)
  {
    RayShape(pieces, side, capture, x, y, dx, dy, n);
  }

  /** A ray that does not capture lists empty squares only. */
  lemma RayQuiet(pieces: seq<Piece>, side: Side, x: int, y: int, dx: int, dy: int, n: int)
    ensures forall c :: c in Ray(pieces, side, false, x, y, dx, dy, n) ==> PieceAt(pieces, c).None?
  {
    RayShape(pieces, side, false, x, y, dx, dy, n);
  }

  /**
   * Along an empty stretch of the line the ray lists the next square: when
   * the first k squares are on the board and empty and k <= n, the ray
   * lists at least k squares.
   */
  lemma {:induction false} RayReaches(pieces: seq<Piece>, side: Side, capture: bool, x: int, y: int, dx: int, dy: int, n: int, k: nat)
    requires k <= n
    requires forall j :: 1 <= j <= k ==> Within(x, y, dx, dy, j) && PieceAt(pieces, Sq(x, y, dx, dy, j)).None?
    ensures |Ray(pieces, side, capture, x, y, dx, dy, n)| >= k
    decreases k
  {
    if k > 0 {
      assert Within(x, y, dx, dy, 1) && PieceAt(pieces, Sq(x, y, dx, dy, 1)).None?;
      var nx, ny := x + dx, y + dy;
      forall j | 1 <= j <= k - 1
        ensures Within(nx, ny, dx, dy, j) && PieceAt(pieces, Sq(nx, ny, dx, dy, j)).None?
      {
        Shift(x, dx, j);
        Shift(y, dy, j);
        assert Within(x, y, dx, dy, j + 1) && PieceAt(pieces, Sq(x, y, dx, dy, j + 1)).None?;
      }
      RayReaches(pieces, side, capture, nx, ny, dx, dy, n - 1, k - 1);
    }
  }

  // ---------------------------------------------------------------------
  // Interleaving

  /** Interleaving lists each element of both lists exactly once. */
  lemma {:induction false} InterleavePerm(a: seq<string>, b: seq<string>)
    ensures multiset(Interleave(a, b)) == multiset(a) + multiset(b)
    decreases |a| + |b|
  {
    if !(a == [] && b == []) {
      InterleavePerm(Drop1(a), Drop1(b));
      assert a == Take1(a) + Drop1(a);
      assert b == Take1(b) + Drop1(b);
    }
  }

  lemma InterleaveMember(a: seq<string>, b: seq<string>)
    ensures |Interleave(a, b)| == |a| + |b|
    ensures forall c :: c in Interleave(a, b) <==> c in a || c in b
  {
    InterleavePerm(a, b);
    forall c ensures c in Interleave(a, b) <==> c in a || c in b {
      assert c in Interleave(a, b) <==> c in multiset(Interleave(a, b));
    }
  }

  // ---------------------------------------------------------------------
  // Geometry of the destinations

  function Abs(n: int): int { if n < 0 then -n else n }

  /** A knight's jump: two squares along one axis and one along the other. */
  predicate KnightJump(dx: int, dy: int) {
    (Abs(dx) == 1 && Abs(dy) == 2) || (Abs(dx) == 2 && Abs(dy) == 1)
  }

  /** c is another square of the file or of the rank of (x, y). */
  predicate Straight(x: int, y: int, c: string) {
    IsSquare(c) && ((GetXYIndices(c).0 == x) != (GetXYIndices(c).1 == y))
  }

  /** c is another square of one of the two diagonals through (x, y). */
  predicate Diagonal(x: int, y: int, c: string) {
    IsSquare(c) && GetXYIndices(c).0 != x && Abs(GetXYIndices(c).0 - x) == Abs(GetXYIndices(c).1 - y)
  }

  /** c is one of the up to eight squares around (x, y). */
  predicate Adjacent(x: int, y: int, c: string) {
    IsSquare(c) && Abs(GetXYIndices(c).0 - x) <= 1 && Abs(GetXYIndices(c).1 - y) <= 1 && GetXYIndices(c) != (x, y)
  }

  /** c is a knight's jump away from (x, y). */
  predicate KnightStep(x: int, y: int, c: string) {
    IsSquare(c) && KnightJump(GetXYIndices(c).0 - x, GetXYIndices(c).1 - y)
  }

  /** A ray along a file or a rank lists squares of that file or rank. */
  lemma RayStraight(pieces: seq<Piece>, side: Side, capture: bool, x: int, y: int, dx: int, dy: int, n: int)
    requires OnBoard(x, y) && ((dx == 0 && (dy == 1 || dy == -1)) || (dy == 0 && (dx == 1 || dx == -1)))
    ensures forall c :: c in Ray(pieces, side, capture, x, y, dx, dy, n) ==> Straight(x, y, c)
  {
    forall c | c in Ray(pieces, side, capture, x, y, dx, dy, n) ensures Straight(x, y, c) {
      var k := RayTarget(pieces, side, capture, x, y, dx, dy, n, c);
    }
  }

  /** A ray along a diagonal lists squares of that diagonal. */
  lemma RayDiagonal(pieces: seq<Piece>, side: Side, capture: bool, x: int, y: int, dx: int, dy: int, n: int)
    requires OnBoard(x, y) && (dx == 1 || dx == -1) && (dy == 1 || dy == -1)
    ensures forall c :: c in Ray(pieces, side, capture, x, y, dx, dy, n) ==> Diagonal(x, y, c)
  {
    forall c | c in Ray(pieces, side, capture, x, y, dx, dy, n) ensures Diagonal(x, y, c) {
      var k := RayTarget(pieces, side, capture, x, y, dx, dy, n, c);
    }
  }

  /** A ray of one step lists at most a square next to the start. */
  lemma RayAdjacent(pieces: seq<Piece>, side: Side, capture: bool, x: int, y: int, dx: int, dy: int)
    requires OnBoard(x, y) && -1 <= dx <= 1 && -1 <= dy <= 1 && (dx, dy) != (0, 0)
    ensures forall c :: c in Ray(pieces, side, capture, x, y, dx, dy, 1) ==> Adjacent(x, y, c)
  {
    forall c | c in Ray(pieces, side, capture, x, y, dx, dy, 1) ensures Adjacent(x, y, c) {
      var k := RayTarget(pieces, side, capture, x, y, dx, dy, 1, c);
    }
  }

  /** Along an empty, on-board stretch of k <= n squares, the ray lists the k-th square. */
  lemma RayIncludes(pieces: seq<Piece>, side: Side, capture: bool, x: int, y: int, dx: int, dy: int, n: int, k: nat)
    requires 1 <= k <= n
    requires forall j :: 1 <= j <= k ==> Within(x, y, dx, dy, j) && PieceAt(pieces, Sq(x, y, dx, dy, j)).None?
    ensures Sq(x, y, dx, dy, k) in Ray(pieces, side, capture, x, y, dx, dy, n)
  {
    RayReaches(pieces, side, capture, x, y, dx, dy, n, k);
    RayShape(pieces, side, capture, x, y, dx, dy, n);
    assert Ray(pieces, side, capture, x, y, dx, dy, n)[k - 1] == Sq(x, y, dx, dy, k);
  }

  /** Square k of the line is the first occupied one: squares 1..k-1 are on the board and empty, square k is on the board and holds a piece. */
  predicate FirstBlocker(pieces: seq<Piece>, x: int, y: int, dx: int, dy: int, k: nat) {
    1 <= k &&
    (forall j :: 1 <= j < k ==> Within(x, y, dx, dy, j) && PieceAt(pieces, Sq(x, y, dx, dy, j)).None?) &&
    Within(x, y, dx, dy, k) && PieceAt(pieces, Sq(x, y, dx, dy, k)).Some?
  }

  /** The piece on c, if any, is of the other side. */
  predicate Enemy(pieces: seq<Piece>, side: Side, c: string) {
    PieceAt(pieces, c).Some? && PieceAt(pieces, c).value.side != side
  }

  /** Seen from the first step of the line, the first occupied square is one step nearer, and that first step is empty. */
  lemma BlockerShift(pieces: seq<Piece>, x: int, y: int, dx: int, dy: int, k: nat)
    requires k > 1 && FirstBlocker(pieces, x, y, dx, dy, k)
    ensures !Beyond(x + dx, y + dy, dx, dy) && PieceAt(pieces, CreateCoordinate(x + dx, y + dy)).None?
    ensures FirstBlocker(pieces, x + dx, y + dy, dx, dy, k - 1)
    ensures Sq(x + dx, y + dy, dx, dy, k - 1) == Sq(x, y, dx, dy, k)
  {
    var nx, ny := x + dx, y + dy;
    assert Along(x, dx, 1) == nx && Along(y, dy, 1) == ny;
    assert Within(x, y, dx, dy, 1) && PieceAt(pieces, Sq(x, y, dx, dy, 1)).None?;
    forall j | 1 <= j <= k - 1
      ensures Sq(nx, ny, dx, dy, j) == Sq(x, y, dx, dy, j + 1)
      ensures Within(nx, ny, dx, dy, j) == Within(x, y, dx, dy, j + 1)
    {
      Shift(x, dx, j);
      Shift(y, dy, j);
    }
  }

  /** A ray whose first step is empty is that square followed by the ray from it. */
  lemma RayEmptyStep(pieces: seq<Piece>, side: Side, capture: bool, x: int, y: int, dx: int, dy: int, n: int)
    requires n > 0 && !Beyond(x + dx, y + dy, dx, dy) && PieceAt(pieces, CreateCoordinate(x + dx, y + dy)).None?
    ensures Ray(pieces, side, capture, x, y, dx, dy, n)
         == [CreateCoordinate(x + dx, y + dy)] + Ray(pieces, side, capture, x + dx, y + dy, dx, dy, n - 1)
  {
  }

  /** A ray whose first step holds a piece lists that square alone when it captures an enemy there, and nothing otherwise. */
  lemma RayHitStep(pieces: seq<Piece>, side: Side, capture: bool, x: int, y: int, dx: int, dy: int, n: int)
    requires n > 0 && !Beyond(x + dx, y + dy, dx, dy) && PieceAt(pieces, CreateCoordinate(x + dx, y + dy)).Some?
    ensures Ray(pieces, side, capture, x, y, dx, dy, n)
         == if capture && Enemy(pieces, side, CreateCoordinate(x + dx, y + dy)) then [CreateCoordinate(x + dx, y + dy)] else []
  {
  }

  /** r is the k - 1 squares before a blocker c, followed by c itself when `hit` holds. */
  predicate BlockedAt(r: seq<string>, c: string, hit: bool, k: nat) {
    1 <= k && |r| == (if hit then k else k - 1) && (hit ==> r[k - 1] == c)
  }

  /** Base of RayBlocked: the first step holds the blocker. */
  lemma BlockedFirst(pieces: seq<Piece>, side: Side, capture: bool, x: int, y: int, dx: int, dy: int, n: int)
    requires 1 <= n && FirstBlocker(pieces, x, y, dx, dy, 1)
    ensures BlockedAt(Ray(pieces, side, capture, x, y, dx, dy, n), Sq(x, y, dx, dy, 1),
                      capture && Enemy(pieces, side, Sq(x, y, dx, dy, 1)), 1)
  {
    assert Along(x, dx, 1) == x + dx && Along(y, dy, 1) == y + dy;
    RayHitStep(pieces, side, capture, x, y, dx, dy, n);
  }

  /** Step of RayBlocked: an empty first step in front of a ray blocked one step nearer. */
  lemma BlockedNext(pieces: seq<Piece>, side: Side, capture: bool, x: int, y: int, dx: int, dy: int, n: int, k: nat)
    requires 1 < k <= n && FirstBlocker(pieces, x, y, dx, dy, k)
    requires BlockedAt(Ray(pieces, side, capture, x + dx, y + dy, dx, dy, n - 1), Sq(x + dx, y + dy, dx, dy, k - 1),
                       capture && Enemy(pieces, side, Sq(x + dx, y + dy, dx, dy, k - 1)), k - 1)
    ensures BlockedAt(Ray(pieces, side, capture, x, y, dx, dy, n), Sq(x, y, dx, dy, k),
                      capture && Enemy(pieces, side, Sq(x, y, dx, dy, k)), k)
  {
    BlockerShift(pieces, x, y, dx, dy, k);
    RayEmptyStep(pieces, side, capture, x, y, dx, dy, n);
  }

  /**
   * At the first occupied square k <= n of the line the ray stops: it lists
   * the k - 1 empty squares before it, and then square k itself exactly when
   * the ray captures and the piece there is of the other side.
   */
  lemma {:induction false} RayBlocked(pieces: seq<Piece>, side: Side, capture: bool, x: int, y: int, dx: int, dy: int, n: int, k: nat)
    requires k <= n && FirstBlocker(pieces, x, y, dx, dy, k)
    ensures BlockedAt(Ray(pieces, side, capture, x, y, dx, dy, n), Sq(x, y, dx, dy, k),
                      capture && Enemy(pieces, side, Sq(x, y, dx, dy, k)), k)
    decreases k
  {
    if k == 1 {
      BlockedFirst(pieces, side, capture, x, y, dx, dy, n);
    } else {
      BlockerShift(pieces, x, y, dx, dy, k);
      RayBlocked(pieces, side, capture, x + dx, y + dy, dx, dy, n - 1, k - 1);
      BlockedNext(pieces, side, capture, x, y, dx, dy, n, k);
    }
  }

  /** Along the line, the ray lists only squares up to the first occupied one, square k: nothing beyond it. */
  lemma NothingBeyond(pieces: seq<Piece>, side: Side, capture: bool, x: int, y: int, dx: int, dy: int, n: int, k: nat)
    requires k <= n && FirstBlocker(pieces, x, y, dx, dy, k)
    ensures forall i :: 0 <= i < |Ray(pieces, side, capture, x, y, dx, dy, n)| ==>
              Ray(pieces, side, capture, x, y, dx, dy, n)[i] == Sq(x, y, dx, dy, i + 1) && i + 1 <= k
  {
    RayBlocked(pieces, side, capture, x, y, dx, dy, n, k);
    RayLine(pieces, side, capture, x, y, dx, dy, n);
  }

  // ---------------------------------------------------------------------
  // Destinations of each kind

  /** A piece's own coordinate, when it names a square, decodes to board indices. */
  lemma PieceOnBoard(p: Piece)
    requires IsSquare(p.coord)
    ensures OnBoard(XOf(p), YOf(p)) && CreateCoordinate(XOf(p), YOf(p)) == p.coord
  {
    DecodeEncode(p.coord);
  }

  /** The forward, backward and sideway moves of any piece but a pawn stay on its file or rank. */
  lemma StraightMoves(p: Piece, pieces: seq<Piece>, steps: Option<nat>)
    requires p.kind != Pawn && IsSquare(p.coord)
    ensures forall c :: c in ForwardMoves(p, pieces, steps) + BackwardMoves(p, pieces, steps) + SidewayMoves(p, pieces, steps) ==>
              Straight(XOf(p), YOf(p), c)
  {
    var x, y := XOf(p), YOf(p);
    PieceOnBoard(p);
    RayStraight(pieces, p.side, true, x, y, 0, 1, UpLimit(y, steps));
    RayStraight(pieces, p.side, true, x, y, 0, -1, DownLimit(y, steps));
    RayStraight(pieces, p.side, true, x, y, 1, 0, UpLimit(x, steps));
    RayStraight(pieces, p.side, true, x, y, -1, 0, DownLimit(x, steps));
  }

  /** The diagonal moves of a piece stay on its diagonals. */
  lemma DiagonalMovesGeometry(p: Piece, pieces: seq<Piece>, steps: Option<nat>)
    requires IsSquare(p.coord)
    ensures forall c :: c in DiagonalMoves(p, pieces, steps) ==> Diagonal(XOf(p), YOf(p), c)
  {
    var x, y := XOf(p), YOf(p);
    PieceOnBoard(p);
    var ur := Ray(pieces, p.side, true, x, y, 1, 1, UpLimit(y, steps));
    var ul := Ray(pieces, p.side, true, x, y, -1, 1, UpLimit(y, steps));
    var dr := Ray(pieces, p.side, true, x, y, 1, -1, DownLimit(y, steps));
    var dl := Ray(pieces, p.side, true, x, y, -1, -1, DownLimit(y, steps));
    RayDiagonal(pieces, p.side, true, x, y, 1, 1, UpLimit(y, steps));
    RayDiagonal(pieces, p.side, true, x, y, -1, 1, UpLimit(y, steps));
    RayDiagonal(pieces, p.side, true, x, y, 1, -1, DownLimit(y, steps));
    RayDiagonal(pieces, p.side, true, x, y, -1, -1, DownLimit(y, steps));
    InterleaveMember(ur, ul);
    InterleaveMember(dr, dl);
  }

  /** A rook lands on its own file or rank. */
  lemma RookMovesStraight(p: Piece, pieces: seq<Piece>)
    requires p.kind == Rook && IsSquare(p.coord)
    ensures forall c :: c in PossibleMoves(p, pieces) ==> Straight(XOf(p), YOf(p), c)
  {
    StraightMoves(p, pieces, None);
  }

  /** A bishop lands on its own diagonals. */
  lemma BishopMovesDiagonal(p: Piece, pieces: seq<Piece>)
    requires p.kind == Bishop && IsSquare(p.coord)
    ensures forall c :: c in PossibleMoves(p, pieces) ==> Diagonal(XOf(p), YOf(p), c)
  {
    DiagonalMovesGeometry(p, pieces, None);
  }

  /** A queen lands on its own file, rank or diagonals. */
  lemma QueenMovesLines(p: Piece, pieces: seq<Piece>)
    requires p.kind == Queen && IsSquare(p.coord)
    ensures forall c :: c in PossibleMoves(p, pieces) ==> Straight(XOf(p), YOf(p), c) || Diagonal(XOf(p), YOf(p), c)
  {
    StraightMoves(p, pieces, None);
    DiagonalMovesGeometry(p, pieces, None);
  }

  /** The one-step forward, backward and sideway moves of a piece are next to it. */
  lemma StraightStepsAdjacent(p: Piece, pieces: seq<Piece>)
    requires p.kind != Pawn && IsSquare(p.coord)
    ensures forall c :: c in ForwardMoves(p, pieces, Some(1)) + BackwardMoves(p, pieces, Some(1)) + SidewayMoves(p, pieces, Some(1)) ==>
              Adjacent(XOf(p), YOf(p), c)
  {
    var x, y := XOf(p), YOf(p);
    PieceOnBoard(p);
    assert UpLimit(y, Some(1)) == 1 && DownLimit(y, Some(1)) == 1 && UpLimit(x, Some(1)) == 1 && DownLimit(x, Some(1)) == 1;
    RayAdjacent(pieces, p.side, true, x, y, 0, 1);
    RayAdjacent(pieces, p.side, true, x, y, 0, -1);
    RayAdjacent(pieces, p.side, true, x, y, 1, 0);
    RayAdjacent(pieces, p.side, true, x, y, -1, 0);
  }

  /** The one-step diagonal moves of a piece are next to it. */
  lemma DiagonalStepsAdjacent(p: Piece, pieces: seq<Piece>)
    requires IsSquare(p.coord)
    ensures forall c :: c in DiagonalMoves(p, pieces, Some(1)) ==> Adjacent(XOf(p), YOf(p), c)
  {
    var x, y := XOf(p), YOf(p);
    PieceOnBoard(p);
    assert UpLimit(y, Some(1)) == 1 && DownLimit(y, Some(1)) == 1;
    RayAdjacent(pieces, p.side, true, x, y, 1, 1);
    RayAdjacent(pieces, p.side, true, x, y, -1, 1);
    RayAdjacent(pieces, p.side, true, x, y, 1, -1);
    RayAdjacent(pieces, p.side, true, x, y, -1, -1);
    InterleaveMember(Ray(pieces, p.side, true, x, y, 1, 1, 1), Ray(pieces, p.side, true, x, y, -1, 1, 1));
    InterleaveMember(Ray(pieces, p.side, true, x, y, 1, -1, 1), Ray(pieces, p.side, true, x, y, -1, -1, 1));
  }

  /** A king lands on a square next to its own. */
  lemma KingMovesAdjacent(p: Piece, pieces: seq<Piece>)
    requires p.kind == King && IsSquare(p.coord)
    ensures forall c :: c in PossibleMoves(p, pieces) ==> Adjacent(XOf(p), YOf(p), c)
  {
    StraightStepsAdjacent(p, pieces);
    DiagonalStepsAdjacent(p, pieces);
  }

  /** A pawn's captures list only squares holding a piece of the other side. */
  lemma CapturesEnemies(pieces: seq<Piece>, side: Side, x: int, y: int, dy: int)
    ensures forall c :: c in PawnCaptures(pieces, side, x, y, dy) ==> PieceAt(pieces, c).Some? && PieceAt(pieces, c).value.side != side
  {
  }

  /** The forward generator never lists a square holding a piece of the mover's side. */
  lemma ForwardNotFriendly(p: Piece, pieces: seq<Piece>, steps: Option<nat>)
    ensures forall c :: c in ForwardMoves(p, pieces, steps) ==> NotFriendly(pieces, p.side, c)
  {
    RayNotFriendly(pieces, p.side, p.kind != Pawn, XOf(p), YOf(p), 0, 1, UpLimit(YOf(p), steps));
    CapturesEnemies(pieces, p.side, XOf(p), YOf(p), 1);
  }

  /** The backward generator never lists a square holding a piece of the mover's side. */
  lemma BackwardNotFriendly(p: Piece, pieces: seq<Piece>, steps: Option<nat>)
    ensures forall c :: c in BackwardMoves(p, pieces, steps) ==> NotFriendly(pieces, p.side, c)
  {
    RayNotFriendly(pieces, p.side, p.kind != Pawn, XOf(p), YOf(p), 0, -1, DownLimit(YOf(p), steps));
    CapturesEnemies(pieces, p.side, XOf(p), YOf(p), -1);
  }

  /** The sideway generator never lists a square holding a piece of the mover's side. */
  lemma SidewayNotFriendly(p: Piece, pieces: seq<Piece>, steps: Option<nat>)
    ensures forall c :: c in SidewayMoves(p, pieces, steps) ==> NotFriendly(pieces, p.side, c)
  {
    RayNotFriendly(pieces, p.side, true, XOf(p), YOf(p), 1, 0, UpLimit(XOf(p), steps));
    RayNotFriendly(pieces, p.side, true, XOf(p), YOf(p), -1, 0, DownLimit(XOf(p), steps));
  }

  /** The diagonal generator never lists a square holding a piece of the mover's side. */
  lemma DiagonalNotFriendly(p: Piece, pieces: seq<Piece>, steps: Option<nat>)
    ensures forall c :: c in DiagonalMoves(p, pieces, steps) ==> NotFriendly(pieces, p.side, c)
  {
    var x, y := XOf(p), YOf(p);
    var ur := Ray(pieces, p.side, true, x, y, 1, 1, UpLimit(y, steps));
    var ul := Ray(pieces, p.side, true, x, y, -1, 1, UpLimit(y, steps));
    var dr := Ray(pieces, p.side, true, x, y, 1, -1, DownLimit(y, steps));
    var dl := Ray(pieces, p.side, true, x, y, -1, -1, DownLimit(y, steps));
    RayNotFriendly(pieces, p.side, true, x, y, 1, 1, UpLimit(y, steps));
    RayNotFriendly(pieces, p.side, true, x, y, -1, 1, UpLimit(y, steps));
    RayNotFriendly(pieces, p.side, true, x, y, 1, -1, DownLimit(y, steps));
    RayNotFriendly(pieces, p.side, true, x, y, -1, -1, DownLimit(y, steps));
    InterleaveMember(ur, ul);
    InterleaveMember(dr, dl);
  }

  /** A knight target is listed only when it holds no piece of the knight's side. */
  lemma TargetNotFriendly(pieces: seq<Piece>, side: Side, x: int, y: int, dx: int, dy: int)
    ensures forall c :: c in KnightTarget(pieces, side, x, y, dx, dy) ==> NotFriendly(pieces, side, c)
  {
  }

  /** The knight generator never lists a square holding a piece of the mover's side. */
  lemma KnightNotFriendly(p: Piece, pieces: seq<Piece>)
    ensures forall c :: c in KnightMoves(p, pieces) ==> NotFriendly(pieces, p.side, c)
  {
    var x, y := XOf(p), YOf(p);
    TargetNotFriendly(pieces, p.side, x, y, -1, 2);
    TargetNotFriendly(pieces, p.side, x, y, 1, 2);
    TargetNotFriendly(pieces, p.side, x, y, -1, -2);
    TargetNotFriendly(pieces, p.side, x, y, 1, -2);
    TargetNotFriendly(pieces, p.side, x, y, 2, -1);
    TargetNotFriendly(pieces, p.side, x, y, 2, 1);
    TargetNotFriendly(pieces, p.side, x, y, -2, -1);
    TargetNotFriendly(pieces, p.side, x, y, -2, 1);
  }

  /** How far a pawn may advance: one square once it has moved, two before. */
  function PawnLimit(p: Piece): nat { if p.hasMoved then 1 else 2 }

  /** No destination of any piece holds a piece of its own side: a piece never captures a friend. */
  lemma NoFriendlyDestination(p: Piece, pieces: seq<Piece>)
    ensures forall c :: c in PossibleMoves(p, pieces) ==> NotFriendly(pieces, p.side, c)
  {
    match p.kind
    case Pawn =>
      var steps := Some(PawnLimit(p));
      ForwardNotFriendly(p, pieces, steps);
      BackwardNotFriendly(p, pieces, steps);
    case Knight =>
      KnightNotFriendly(p, pieces);
    case Bishop =>
      DiagonalNotFriendly(p, pieces, None);
    case Rook =>
      ForwardNotFriendly(p, pieces, None);
      BackwardNotFriendly(p, pieces, None);
      SidewayNotFriendly(p, pieces, None);
    case Queen =>
      ForwardNotFriendly(p, pieces, None);
      BackwardNotFriendly(p, pieces, None);
      SidewayNotFriendly(p, pieces, None);
      DiagonalNotFriendly(p, pieces, None);
    case King =>
      ForwardNotFriendly(p, pieces, Some(1));
      BackwardNotFriendly(p, pieces, Some(1));
      SidewayNotFriendly(p, pieces, Some(1));
      DiagonalNotFriendly(p, pieces, Some(1));
  }

  /** One square along a file or a rank. */
  predicate StraightDir(dx: int, dy: int) {
    (dx == 0 && (dy == 1 || dy == -1)) || (dy == 0 && (dx == 1 || dx == -1))
  }

  /** One square along a diagonal. */
  predicate DiagonalDir(dx: int, dy: int) {
    (dx == 1 || dx == -1) && (dy == 1 || dy == -1)
  }

  /** The unlimited straight generators of any piece but a pawn capture the first piece along a file or rank when it is an enemy. */
  lemma StraightCaptures(p: Piece, pieces: seq<Piece>, dx: int, dy: int, k: nat)
    requires p.kind != Pawn && IsSquare(p.coord) && StraightDir(dx, dy)
    requires FirstBlocker(pieces, XOf(p), YOf(p), dx, dy, k) && Enemy(pieces, p.side, Sq(XOf(p), YOf(p), dx, dy, k))
    ensures Sq(XOf(p), YOf(p), dx, dy, k) in ForwardMoves(p, pieces, None) + BackwardMoves(p, pieces, None) + SidewayMoves(p, pieces, None)
  {
    var x, y := XOf(p), YOf(p);
    PieceOnBoard(p);
    AlongUnit(x, dx, k);
    AlongUnit(y, dy, k);
    var n := if dy == 1 then UpLimit(y, None) else if dy == -1 then DownLimit(y, None)
             else if dx == 1 then UpLimit(x, None) else DownLimit(x, None);
    RayBlocked(pieces, p.side, true, x, y, dx, dy, n, k);
    assert Sq(x, y, dx, dy, k) in Ray(pieces, p.side, true, x, y, dx, dy, n);
  }

  /** The unlimited diagonal generator captures the first piece along a diagonal when it is an enemy. */
  lemma DiagonalCaptures(p: Piece, pieces: seq<Piece>, dx: int, dy: int, k: nat)
    requires IsSquare(p.coord) && DiagonalDir(dx, dy)
    requires FirstBlocker(pieces, XOf(p), YOf(p), dx, dy, k) && Enemy(pieces, p.side, Sq(XOf(p), YOf(p), dx, dy, k))
    ensures Sq(XOf(p), YOf(p), dx, dy, k) in DiagonalMoves(p, pieces, None)
  {
    var x, y := XOf(p), YOf(p);
    PieceOnBoard(p);
    AlongUnit(x, dx, k);
    AlongUnit(y, dy, k);
    var n := if dy == 1 then UpLimit(y, None) else DownLimit(y, None);
    RayBlocked(pieces, p.side, true, x, y, dx, dy, n, k);
    assert Sq(x, y, dx, dy, k) in Ray(pieces, p.side, true, x, y, dx, dy, n);
    InterleaveMember(Ray(pieces, p.side, true, x, y, 1, 1, n), Ray(pieces, p.side, true, x, y, -1, 1, n));
    InterleaveMember(Ray(pieces, p.side, true, x, y, 1, -1, n), Ray(pieces, p.side, true, x, y, -1, -1, n));
  }

  /**
   * A rook, bishop or queen reaches the first occupied square along one of
   * its lines exactly when the piece there is an enemy: the capture is
   * offered, and a friendly blocker is not.
   */
  lemma SlideCaptures(p: Piece, pieces: seq<Piece>, dx: int, dy: int, k: nat)
    requires IsSquare(p.coord)
    requires (p.kind == Rook && StraightDir(dx, dy)) || (p.kind == Bishop && DiagonalDir(dx, dy))
             || (p.kind == Queen && (StraightDir(dx, dy) || DiagonalDir(dx, dy)))
    requires FirstBlocker(pieces, XOf(p), YOf(p), dx, dy, k)
    ensures Sq(XOf(p), YOf(p), dx, dy, k) in PossibleMoves(p, pieces) <==> Enemy(pieces, p.side, Sq(XOf(p), YOf(p), dx, dy, k))
  {
    NoFriendlyDestination(p, pieces);
    if Enemy(pieces, p.side, Sq(XOf(p), YOf(p), dx, dy, k)) {
      if StraightDir(dx, dy) {
        StraightCaptures(p, pieces, dx, dy, k);
      } else {
        DiagonalCaptures(p, pieces, dx, dy, k);
      }
    }
  }

  // ---------------------------------------------------------------------
  // Pawns

  /** The rank direction a pawn of `side` walks: up for white, down for black. */
  function Forward(side: Side): int { if side == White then 1 else -1 }

  /** How many ranks r lies ahead of y for a pawn of `side`. */
  function Ahead(side: Side, y: int, r: int): int { if side == White then r - y else y - r }

  /** The square diagonally ahead of a pawn, dx files across. */
  function CaptureSquare(p: Piece, dx: int): string {
    CreateCoordinate(XOf(p) + dx, YOf(p) + Forward(p.side))
  }

  /**
   * A pawn move: an empty square of its file one rank ahead, or two before
   * the pawn has moved; or a square diagonally ahead holding a piece of the
   * other side.
   */
  predicate PawnStep(p: Piece, pieces: seq<Piece>, c: string) {
    (IsSquare(c) && GetXYIndices(c).0 == XOf(p) && PieceAt(pieces, c).None? &&
     1 <= Ahead(p.side, YOf(p), GetXYIndices(c).1) <= PawnLimit(p))
    || ((c == CaptureSquare(p, -1) || c == CaptureSquare(p, 1)) &&
        PieceAt(pieces, c).Some? && PieceAt(pieces, c).value.side != p.side)
  }

  /** The non-capturing ray of a pawn along its file. */
  function PawnRay(p: Piece, pieces: seq<Piece>): seq<string> {
    Ray(pieces, p.side, false, XOf(p), YOf(p), 0, Forward(p.side), PawnLimit(p))
  }

  /** A pawn's destinations: its ray along the file, then its two diagonal captures. */
  lemma PawnMovesUnfold(p: Piece, pieces: seq<Piece>)
    requires p.kind == Pawn
    ensures PossibleMoves(p, pieces) == PawnRay(p, pieces) + PawnCaptures(pieces, p.side, XOf(p), YOf(p), Forward(p.side))
  {
    assert UpLimit(YOf(p), Some(PawnLimit(p))) == PawnLimit(p) && DownLimit(YOf(p), Some(PawnLimit(p))) == PawnLimit(p);
  }

  /** Every square of a pawn's ray is an empty square of its file, one or (before it has moved) two ranks ahead. */
  lemma PawnRayAhead(p: Piece, pieces: seq<Piece>, c: string)
    requires IsSquare(p.coord) && c in PawnRay(p, pieces)
    ensures IsSquare(c) && GetXYIndices(c).0 == XOf(p) && PieceAt(pieces, c).None?
    ensures 1 <= Ahead(p.side, YOf(p), GetXYIndices(c).1) <= PawnLimit(p)
  {
    PieceOnBoard(p);
    RayQuiet(pieces, p.side, XOf(p), YOf(p), 0, Forward(p.side), PawnLimit(p));
    var k := RayTarget(pieces, p.side, false, XOf(p), YOf(p), 0, Forward(p.side), PawnLimit(p), c);
  }

  /** Every pawn destination is a pawn move. */
  lemma PawnMovesSound(p: Piece, pieces: seq<Piece>)
    requires p.kind == Pawn && IsSquare(p.coord)
    ensures forall c :: c in PossibleMoves(p, pieces) ==> PawnStep(p, pieces, c)
  {
    PawnMovesUnfold(p, pieces);
    CapturesEnemies(pieces, p.side, XOf(p), YOf(p), Forward(p.side));
    forall c | c in PossibleMoves(p, pieces) ensures PawnStep(p, pieces, c) {
      if c in PawnRay(p, pieces) { PawnRayAhead(p, pieces, c); }
    }
  }

  /** A square diagonally ahead of a pawn is a destination exactly when a piece of the other side stands there. */
  lemma PawnCaptureExact(p: Piece, pieces: seq<Piece>, dx: int)
    requires p.kind == Pawn && IsSquare(p.coord) && (dx == 1 || dx == -1)
    ensures CaptureSquare(p, dx) in PossibleMoves(p, pieces) <==>
              PieceAt(pieces, CaptureSquare(p, dx)).Some? && PieceAt(pieces, CaptureSquare(p, dx)).value.side != p.side
  {
    var c := CaptureSquare(p, dx);
    var xc, yc := XOf(p) + dx, YOf(p) + Forward(p.side);
    PawnMovesUnfold(p, pieces);
    CapturesEnemies(pieces, p.side, XOf(p), YOf(p), Forward(p.side));
    if c in PawnRay(p, pieces) {
      PawnRayAhead(p, pieces, c);
      EncodeDecode(xc, yc);
    }
  }

  /** A pawn may step onto the empty square right ahead of it. */
  lemma PawnSingleStep(p: Piece, pieces: seq<Piece>)
    requires p.kind == Pawn && IsSquare(p.coord)
    requires OnBoard(XOf(p), YOf(p) + Forward(p.side))
    requires PieceAt(pieces, CreateCoordinate(XOf(p), YOf(p) + Forward(p.side))).None?
    ensures CreateCoordinate(XOf(p), YOf(p) + Forward(p.side)) in PossibleMoves(p, pieces)
  {
    var x, y, f := XOf(p), YOf(p), Forward(p.side);
    AlongUnit(x, 0, 1);
    AlongUnit(y, f, 1);
    RayIncludes(pieces, p.side, false, x, y, 0, f, PawnLimit(p), 1);
    PawnMovesUnfold(p, pieces);
  }

  /** A pawn that has not moved may advance two squares when both squares ahead are empty. */
  lemma PawnDoubleStep(p: Piece, pieces: seq<Piece>)
    requires p.kind == Pawn && IsSquare(p.coord) && !p.hasMoved
    requires OnBoard(XOf(p), YOf(p) + 2 * Forward(p.side))
    requires PieceAt(pieces, CreateCoordinate(XOf(p), YOf(p) + Forward(p.side))).None?
    requires PieceAt(pieces, CreateCoordinate(XOf(p), YOf(p) + 2 * Forward(p.side))).None?
    ensures CreateCoordinate(XOf(p), YOf(p) + 2 * Forward(p.side)) in PossibleMoves(p, pieces)
  {
    var x, y, f := XOf(p), YOf(p), Forward(p.side);
    PieceOnBoard(p);
    AlongUnit(x, 0, 1);
    AlongUnit(y, f, 1);
    AlongUnit(x, 0, 2);
    AlongUnit(y, f, 2);
    RayIncludes(pieces, p.side, false, x, y, 0, f, 2, 2);
    PawnMovesUnfold(p, pieces);
  }

  // ---------------------------------------------------------------------
  // Knights

  /** A knight target that passes the guard is a jump away, on the board, and not held by the knight's side. */
  lemma KnightTargetSound(pieces: seq<Piece>, side: Side, x: int, y: int, dx: int, dy: int)
    requires OnBoard(x, y) && KnightJump(dx, dy)
    ensures forall c :: c in KnightTarget(pieces, side, x, y, dx, dy) ==>
              IsSquare(c) && GetXYIndices(c) == (x + dx, y + dy) && KnightStep(x, y, c) && NotFriendly(pieces, side, c)
  {
    if KnightGuard(x, y, dx, dy) {
      EncodeDecode(x + dx, y + dy);
    }
  }

  /** Every knight destination is a jump away and not held by a piece of the knight's side. */
  lemma KnightSound(p: Piece, pieces: seq<Piece>)
    requires p.kind == Knight && IsSquare(p.coord)
    ensures forall c :: c in PossibleMoves(p, pieces) ==> KnightStep(XOf(p), YOf(p), c) && NotFriendly(pieces, p.side, c)
  {
    var x, y := XOf(p), YOf(p);
    PieceOnBoard(p);
    KnightTargetSound(pieces, p.side, x, y, -1, 2);
    KnightTargetSound(pieces, p.side, x, y, 1, 2);
    KnightTargetSound(pieces, p.side, x, y, -1, -2);
    KnightTargetSound(pieces, p.side, x, y, 1, -2);
    KnightTargetSound(pieces, p.side, x, y, 2, -1);
    KnightTargetSound(pieces, p.side, x, y, 2, 1);
    KnightTargetSound(pieces, p.side, x, y, -2, -1);
    KnightTargetSound(pieces, p.side, x, y, -2, 1);
  }

  /**
   * Every on-board jump to a square not held by the knight's side is a
   * destination, except the jump two files left and one rank down from the
   * second rank, which the guard y >= 2 of that target rules out.
   */
  lemma KnightComplete(p: Piece, pieces: seq<Piece>, dx: int, dy: int)
    requires p.kind == Knight && IsSquare(p.coord) && KnightJump(dx, dy)
    requires OnBoard(XOf(p) + dx, YOf(p) + dy) && NotFriendly(pieces, p.side, CreateCoordinate(XOf(p) + dx, YOf(p) + dy))
    requires !(dx == -2 && dy == -1 && YOf(p) == 1)
    ensures CreateCoordinate(XOf(p) + dx, YOf(p) + dy) in PossibleMoves(p, pieces)
  {
    assert KnightGuard(XOf(p), YOf(p), dx, dy);
    assert KnightTarget(pieces, p.side, XOf(p), YOf(p), dx, dy) == [CreateCoordinate(XOf(p) + dx, YOf(p) + dy)];
  }

  /** The guard's quirk: a white knight on C2 alone on the board is not offered A1, an empty square a jump away. */
  lemma KnightQuirk()
    ensures KnightJump(-2, -1) && GetXYIndices("C2") == (2, 1) && CreateCoordinate(0, 0) == "A1"
    ensures PieceAt([Piece(Knight, White, "C2", false)], "A1").None?
    ensures "A1" !in PossibleMoves(Piece(Knight, White, "C2", false), [Piece(Knight, White, "C2", false)])
  {
    var p := Piece(Knight, White, "C2", false);
    assert XOf(p) == 2 && YOf(p) == 1;
    assert GetXYIndices("A1") == (0, 0);
    KnightTargetSound([p], White, 2, 1, -1, 2);
    KnightTargetSound([p], White, 2, 1, 1, 2);
    KnightTargetSound([p], White, 2, 1, -1, -2);
    KnightTargetSound([p], White, 2, 1, 1, -2);
    KnightTargetSound([p], White, 2, 1, 2, -1);
    KnightTargetSound([p], White, 2, 1, 2, 1);
    KnightTargetSound([p], White, 2, 1, -2, 1);
    assert KnightTarget([p], White, 2, 1, -2, -1) == [];
  }

  // ---------------------------------------------------------------------
  // All kinds

  /** On a board whose pieces all stand on squares, a pawn's captures are squares. */
  lemma PieceAtOnSquares(pieces: seq<Piece>, c: string)
    requires OnSquares(pieces) && PieceAt(pieces, c).Some?
    ensures IsSquare(c)
  {
    FindIndexSpec(pieces, c);
  }

  /** From a square of a board whose pieces all stand on squares, every destination is one of the 64 squares. */
  lemma DestinationsOnBoard(p: Piece, pieces: seq<Piece>)
    requires IsSquare(p.coord) && OnSquares(pieces)
    ensures forall c :: c in PossibleMoves(p, pieces) ==> IsSquare(c)
  {
    match p.kind
    case Pawn =>
      PawnMovesSound(p, pieces);
      forall c | c in PossibleMoves(p, pieces) ensures IsSquare(c) {
        if PieceAt(pieces, c).Some? { PieceAtOnSquares(pieces, c); }
      }
    case Rook => RookMovesStraight(p, pieces);
    case Knight => KnightSound(p, pieces);
    case Bishop => BishopMovesDiagonal(p, pieces);
    case Queen => QueenMovesLines(p, pieces);
    case King => KingMovesAdjacent(p, pieces);
  }
}
