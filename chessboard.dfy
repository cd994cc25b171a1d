/**
 * The client board (public/src/Game/Chessboard.js): the 64 squares, the
 * shared piece list, the start position built from `_layout`, lookup and
 * removal by coordinate.
 *
 * A square is represented by its coordinate only (its mesh, material and
 * position are not modelled). The board's piece list is the `_pieces`
 * array every piece holds by reference; the move generators of module
 * Moves take it as a value.
 */
module Board {
  import opened Wrappers
  import opened Coordinates
  import opened Pieces

  // ---------------------------------------------------------------------
  // The start position

  /** `_layout`: one row per rank index y, one cell per column x; 0 is an empty cell. */
  const Layout: seq<seq<int>> := [
    [2, 3, 4, 6, 5, 4, 3, 2],
    [1, 1, 1, 1, 1, 1, 1, 1],
    [0, 0, 0, 0, 0, 0, 0, 0],
    [0, 0, 0, 0, 0, 0, 0, 0],
    [0, 0, 0, 0, 0, 0, 0, 0],
    [0, 0, 0, 0, 0, 0, 0, 0],
    [1, 1, 1, 1, 1, 1, 1, 1],
    [2, 3, 4, 6, 5, 4, 3, 2]
  ]

  /** The `switch` of CreatePieces: the kind a layout number creates, if any. */
  function KindOf(v: int): (r: Option<Kind>)
    ensures r.Some? <==> 1 <= v <= 6
    ensures r == Some(Pawn) <==> v == 1
  {
    if v == 1 then Some(Pawn)
    else if v == 2 then Some(Rook)
    else if v == 3 then Some(Knight)
    else if v == 4 then Some(Bishop)
    else if v == 5 then Some(Queen)
    else if v == 6 then Some(King)
    else None
  }

  /** Layout rows above index 4 (ranks 7 and 8) are black, the others white. */
  function SideOfRow(y: int): Side {
    if y > 4 then Black else White
  }

  /** The coordinate of cell (x, y) of a layout: file `x_coord[(_layout[y].length - 1) - x]`, rank `y_coord[y]`. */
  function CellCoordinate(layout: seq<seq<int>>, x: int, y: int): string
    requires 0 <= y < |layout|
  {
    CreateCoordinate(|layout[y]| - 1 - x, y)
  }

  /** The piece CreatePieces makes for cell (x, y): none for an empty cell, else an unmoved one of the row's side. */
  function Cell(layout: seq<seq<int>>, x: int, y: int): seq<Piece>
    requires 0 <= y < |layout| && 0 <= x < |layout[y]|
  {
    match KindOf(layout[y][x])
    case None => []
    case Some(k) => [Piece(k, SideOfRow(y), CellCoordinate(layout, x, y), false)]
  }

  /** The pieces of the first n cells of row y, in the order of the inner loop. */
  function RowPieces(layout: seq<seq<int>>, y: int, n: int): seq<Piece>
    requires 0 <= y < |layout| && 0 <= n <= |layout[y]|
  {
    if n == 0 then [] else RowPieces(layout, y, n - 1) + Cell(layout, n - 1, y)
  }

  /** The pieces of the first `rows` rows, in the order of the outer loop. */
  function BoardPieces(layout: seq<seq<int>>, rows: int): seq<Piece>
    requires 0 <= rows <= |layout|
  {
    if rows == 0 then [] else BoardPieces(layout, rows - 1) + RowPieces(layout, rows - 1, |layout[rows - 1]|)
  }

  /** The coordinates of the first n squares of row y, in the order of the inner loop of CreateBoard. */
  function RowSquares(layout: seq<seq<int>>, y: int, n: int): seq<string>
    requires 0 <= y < |layout| && 0 <= n
  {
    if n == 0 then [] else RowSquares(layout, y, n - 1) + [CellCoordinate(layout, n - 1, y)]
  }

  /** The coordinates of the squares of the first `rows` rows. */
  function BoardSquares(layout: seq<seq<int>>, rows: int): seq<string>
    requires 0 <= rows <= |layout|
  {
    if rows == 0 then [] else BoardSquares(layout, rows - 1) + RowSquares(layout, rows - 1, |layout[rows - 1]|)
  }

  /** A layout of 8 rows of 8 cells. */
  predicate Square8(layout: seq<seq<int>>) {
    |layout| == 8 && forall y :: 0 <= y < 8 ==> |layout[y]| == 8
  }

  /** A layout whose rows are those of `_layout`. */
  predicate StartLayout(layout: seq<seq<int>>) {
    Square8(layout) && forall y :: 0 <= y < 8 ==> layout[y] == Layout[y]
  }

  /** `_layout` is 8 rows of 8 cells. */
  lemma LayoutIsStart()
    ensures StartLayout(Layout)
  {
    forall y | 0 <= y < 8 ensures |Layout[y]| == 8 {
      if y == 0 {} else if y == 1 {} else if y == 2 {} else if y == 3 {}
      else if y == 4 {} else if y == 5 {} else if y == 6 {} else {}
    }
  }

  /** The `_layout` literal, known to callers only as a layout of the start position (row by row the literal). */
  method StartingLayout() returns (layout: seq<seq<int>>)
    ensures StartLayout(layout)
  {
    LayoutIsStart();
    layout := Layout;
  }

  lemma AppendAssoc<T>(a: seq<T>, b: seq<T>, c: seq<T>)
    ensures a + b + c == a + (b + c)
  {
  }


  // ---------------------------------------------------------------------
  // Removal

  /** The list after `_pieces.splice(findIndex(coordinate), 1)`, or unchanged when no piece stands there. */
  function RemoveAt(pieces: seq<Piece>, c: string): seq<Piece> {
    var i := FindIndex(pieces, c);
    if i < 0 then pieces else pieces[..i] + pieces[i + 1..]
  }

  /** With no piece on `c` nothing changes; otherwise exactly the piece PieceAt finds is taken out. */
  lemma RemoveAtSpec(pieces: seq<Piece>, c: string)
    ensures PieceAt(pieces, c).None? ==> RemoveAt(pieces, c) == pieces
    ensures PieceAt(pieces, c).Some? ==>
              |RemoveAt(pieces, c)| == |pieces| - 1 &&
              multiset(RemoveAt(pieces, c)) + multiset{PieceAt(pieces, c).value} == multiset(pieces)
  {
    var i := FindIndex(pieces, c);
    if 0 <= i {
      assert pieces == pieces[..i] + [pieces[i]] + pieces[i + 1..];
    }
  }

  /** The order of the other pieces is kept: position k of the result holds the k-th piece before the removed one and the (k+1)-th after it. */
  lemma RemoveAtIndex(pieces: seq<Piece>, c: string, k: int)
    requires 0 <= FindIndex(pieces, c) && 0 <= k < |pieces| - 1
    ensures |RemoveAt(pieces, c)| == |pieces| - 1
    ensures RemoveAt(pieces, c)[k] == if k < FindIndex(pieces, c) then pieces[k] else pieces[k + 1]
  {
  }

  /** Removing the piece on `c` changes what any other coordinate holds in no way. */
  lemma RemoveAtOthers(pieces: seq<Piece>, c: string, d: string)
    requires d != c
    ensures PieceAt(RemoveAt(pieces, c), d) == PieceAt(pieces, d)
  {
    var i, j := FindIndex(pieces, c), FindIndex(pieces, d);
    if 0 <= i {
      var rest := RemoveAt(pieces, c);
      if j < 0 {
        assert FindIndex(rest, d) == -1 by {
          FindIndexSpec(pieces, d);
          forall k | 0 <= k < |rest| ensures rest[k].coord != d {
            RemoveAtIndex(pieces, c, k);
          }
          FindIndexSpec(rest, d);
        }
      } else {
        assert j != i by {
          FindIndexSpec(pieces, c);
          FindIndexSpec(pieces, d);
        }
        var m := if j < i then j else j - 1;
        assert FindIndex(rest, d) == m by {
          FindIndexSpec(pieces, d);
          RemoveAtIndex(pieces, c, m);
          forall k | 0 <= k < m ensures rest[k].coord != d {
            RemoveAtIndex(pieces, c, k);
          }
          FindIndexIs(rest, d, m);
        }
        RemoveAtIndex(pieces, c, m);
      }
    }
  }

  /** On a list with distinct coordinates, removal keeps the coordinates distinct and leaves `c` empty. */
  lemma RemoveAtDistinct(pieces: seq<Piece>, c: string)
    requires DistinctCoords(pieces)
    ensures DistinctCoords(RemoveAt(pieces, c))
    ensures PieceAt(RemoveAt(pieces, c), c).None?
  {
    var i := FindIndex(pieces, c);
    FindIndexSpec(pieces, c);
    var rest := RemoveAt(pieces, c);
    if 0 <= i {
      forall k | 0 <= k < |rest| ensures rest[k] == if k < i then pieces[k] else pieces[k + 1] {
        RemoveAtIndex(pieces, c, k);
      }
    }
    FindIndexSpec(rest, c);
  }

  // ---------------------------------------------------------------------
  // The board

  class Chessboard {
    /** `_layout`, fixed by the constructor. */
    const layout: seq<seq<int>>
    /** The coordinates of `_squares`, in creation order. */
    var squares: seq<string>
    /** `_pieces`, the list every piece shares. */
    var pieces: seq<Piece>

    /** The constructor: the start layout, empty lists, then CreateBoard. */
    constructor()
      ensures StartLayout(layout)
      ensures squares == BoardSquares(layout, |layout|) && pieces == BoardPieces(layout, |layout|)
    {
      var start := StartingLayout();
      layout := start;
      squares := [];
      pieces := [];
      new;
      CreateBoard();
    }

    /** CreateBoard: a square for every cell of every layout row, then CreatePieces. */
    method CreateBoard()
      modifies this
      ensures squares == old(squares) + BoardSquares(layout, |layout|)
      ensures pieces == old(pieces) + BoardPieces(layout, |layout|)
    {
      var y := 0;
      while y < |layout|
        invariant 0 <= y <= |layout|
        invariant squares == old(squares) + BoardSquares(layout, y)
        invariant pieces == old(pieces)
      {
        ghost var prefix := squares;
        var x := 0;
        while x < |layout[y]|
          invariant 0 <= x <= |layout[y]|
          invariant squares == prefix + RowSquares(layout, y, x)
          invariant pieces == old(pieces)
        {
          squares := squares + [CellCoordinate(layout, x, y)];
          AppendAssoc(prefix, RowSquares(layout, y, x), [CellCoordinate(layout, x, y)]);
          x := x + 1;
        }
        assert BoardSquares(layout, y + 1) == BoardSquares(layout, y) + RowSquares(layout, y, x);
        AppendAssoc(old(squares), BoardSquares(layout, y), RowSquares(layout, y, x));
        y := y + 1;
      }
      CreatePieces();
    }

    /** CreatePieces: for every cell holding a piece number, append that piece, black on rows above 4. */
    method CreatePieces()
      modifies this
      ensures squares == old(squares)
      ensures pieces == old(pieces) + BoardPieces(layout, |layout|)
    {
      var y := 0;
      while y < |layout|
        invariant 0 <= y <= |layout|
        invariant squares == old(squares)
        invariant pieces == old(pieces) + BoardPieces(layout, y)
      {
        ghost var prefix := pieces;
        var x := 0;
        while x < |layout[y]|
          invariant 0 <= x <= |layout[y]|
          invariant squares == old(squares)
          invariant pieces == prefix + RowPieces(layout, y, x)
        {
          var coordinate := CellCoordinate(layout, x, y);
          var kind := KindOf(layout[y][x]);
          if kind.Some? {
            var side := if y > 4 then Black else White;
            assert side == SideOfRow(y);
            pieces := pieces + [Piece(kind.value, side, coordinate, false)];
          }
          assert RowPieces(layout, y, x + 1) == RowPieces(layout, y, x) + Cell(layout, x, y);
          AppendAssoc(prefix, RowPieces(layout, y, x), Cell(layout, x, y));
          x := x + 1;
        }
        assert BoardPieces(layout, y + 1) == BoardPieces(layout, y) + RowPieces(layout, y, x);
        AppendAssoc(old(pieces), BoardPieces(layout, y), RowPieces(layout, y, x));
        y := y + 1;
      }
    }

    /** Reset: drop every piece and create the pieces of the layout again; the squares stay. */
    method Reset()
      modifies this
      ensures squares == old(squares)
      ensures pieces == BoardPieces(layout, |layout|)
    {
      pieces := [];
      CreatePieces();
    }

    /** GetPieceByCoordinate: the first piece of the list standing on `c`, or none. */
    method GetPieceByCoordinate(c: string) returns (r: Option<Piece>)
      ensures r == PieceAt(pieces, c)
    {
      FindIndexSpec(pieces, c);
      var i := 0;
      while i < |pieces|
        invariant 0 <= i <= |pieces|
        invariant forall k :: 0 <= k < i ==> pieces[k].coord != c
      {
        if pieces[i].coord == c {
          return Some(pieces[i]);
        }
        i := i + 1;
      }
      return None;
    }

    /** GetSquareByCoordinate: whether some square has coordinate `c` (the source returns that square, or undefined). */
    method GetSquareByCoordinate(c: string) returns (found: bool)
      ensures found <==> c in squares
    {
      var i := 0;
      while i < |squares|
        invariant 0 <= i <= |squares|
        invariant forall k :: 0 <= k < i ==> squares[k] != c
      {
        if squares[i] == c {
          return true;
        }
        i := i + 1;
      }
      return false;
    }

    /** RemovePiece: remove the first piece standing on the coordinate of `piece`; with none there, change nothing. */
    method RemovePiece(piece: Piece)
      modifies this
      ensures squares == old(squares)
      ensures pieces == RemoveAt(old(pieces), piece.coord)
    {
      var i := FindIndex(pieces, piece.coord);
      if i < 0 {
        return;
      }
      pieces := pieces[..i] + pieces[i + 1..];
    }
  }
}
