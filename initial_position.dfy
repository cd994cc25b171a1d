/**
 * The start position a new board builds (public/src/Game/Chessboard.js,
 * `_layout`, CreateBoard and CreatePieces): 64 distinct squares covering
 * A1..H8, and 32 unmoved pieces on distinct squares of ranks 1, 2, 7 and 8,
 * white on ranks 1 and 2 and black on ranks 7 and 8, each standing where
 * its layout cell puts it.
 *
 * The lemmas speak of any layout with the rows of `_layout`
 * (StartLayout); the constructor of Chessboard promises that its layout is
 * one, and that its lists are BoardSquares and BoardPieces of it.
 *
 * Distinctness is proved through Key, the position of a square in the
 * order the board visits cells: both loops visit the cells in increasing
 * key order, so the lists they build are strictly increasing in key.
 */
module InitialPosition {
  import opened Wrappers
  import opened Coordinates
  import opened Pieces
  import opened Board

  /** The position of a square in the order the board visits cells: rank by rank, file H down to A. */
  function Key(c: string): int {
    8 * GetXYIndices(c).1 + 7 - GetXYIndices(c).0
  }

  /** The coordinate of cell (x, y) is a square with indices (7 - x, y) and key 8y + x. */
  lemma CellSquare(layout: seq<seq<int>>, x: int, y: int)
    requires Square8(layout) && 0 <= x < 8 && 0 <= y < 8
    ensures IsSquare(CellCoordinate(layout, x, y))
    ensures GetXYIndices(CellCoordinate(layout, x, y)) == (7 - x, y)
    ensures Key(CellCoordinate(layout, x, y)) == 8 * y + x
  {
    EncodeDecode(7 - x, y);
  }

  // ---------------------------------------------------------------------
  // Squares

  /** Every element of cs is a square whose key lies in [lo, hi). */
  predicate KeysBetween(cs: seq<string>, lo: int, hi: int) {
    forall k :: 0 <= k < |cs| ==> IsSquare(cs[k]) && lo <= Key(cs[k]) < hi
  }

  /** The keys of cs strictly increase. */
  predicate KeysIncrease(cs: seq<string>) {
    forall i, j :: 0 <= i < j < |cs| ==> Key(cs[i]) < Key(cs[j])
  }

  lemma KeysAppend(a: seq<string>, b: seq<string>, lo: int, mid: int, hi: int)
    requires lo <= mid <= hi && KeysBetween(a, lo, mid) && KeysBetween(b, mid, hi)
    requires KeysIncrease(a) && KeysIncrease(b)
    ensures KeysBetween(a + b, lo, hi) && KeysIncrease(a + b)
  {
    var s := a + b;
    forall k | 0 <= k < |s| ensures IsSquare(s[k]) && lo <= Key(s[k]) < hi {
      if k < |a| { assert s[k] == a[k]; } else { assert s[k] == b[k - |a|]; }
    }
    forall i, j | 0 <= i < j < |s| ensures Key(s[i]) < Key(s[j]) {
      if j < |a| {
        assert s[i] == a[i] && s[j] == a[j];
      } else if i < |a| {
        assert s[i] == a[i] && s[j] == b[j - |a|];
      } else {
        assert s[i] == b[i - |a|] && s[j] == b[j - |a|];
      }
    }
  }

  /** Row y of the squares: n squares of rank y, in increasing key order, holding the coordinate of every cell x < n. */
  lemma {:induction false} RowSquaresShape(layout: seq<seq<int>>, y: int, n: int)
    requires Square8(layout) && 0 <= y < 8 && 0 <= n <= 8
    ensures |RowSquares(layout, y, n)| == n
    ensures KeysBetween(RowSquares(layout, y, n), 8 * y, 8 * y + n) && KeysIncrease(RowSquares(layout, y, n))
    ensures forall x :: 0 <= x < n ==> CellCoordinate(layout, x, y) in RowSquares(layout, y, n)
  {
    if n > 0 {
      RowSquaresShape(layout, y, n - 1);
      CellSquare(layout, n - 1, y);
      KeysAppend(RowSquares(layout, y, n - 1), [CellCoordinate(layout, n - 1, y)], 8 * y, 8 * y + n - 1, 8 * y + n);
    }
  }

  /** The first `rows` rows of squares: 8 per row, in increasing key order, holding the coordinate of every cell. */
  lemma {:induction false} BoardSquaresShape(layout: seq<seq<int>>, rows: int)
    requires Square8(layout) && 0 <= rows <= 8
    ensures |BoardSquares(layout, rows)| == 8 * rows
    ensures KeysBetween(BoardSquares(layout, rows), 0, 8 * rows) && KeysIncrease(BoardSquares(layout, rows))
    ensures forall x, y :: 0 <= x < 8 && 0 <= y < rows ==> CellCoordinate(layout, x, y) in BoardSquares(layout, rows)
  {
    if rows > 0 {
      BoardSquaresShape(layout, rows - 1);
      RowSquaresShape(layout, rows - 1, 8);
      var board, row := BoardSquares(layout, rows - 1), RowSquares(layout, rows - 1, 8);
      KeysAppend(board, row, 0, 8 * (rows - 1), 8 * rows);
      forall x, y | 0 <= x < 8 && 0 <= y < rows ensures CellCoordinate(layout, x, y) in board + row {
        if y < rows - 1 {
          assert CellCoordinate(layout, x, y) in board;
        } else {
          assert CellCoordinate(layout, x, y) in row;
        }
      }
    }
  }

  /** An 8 by 8 layout gives 64 squares with distinct coordinates, and every square A1..H8 is one of them. */
  lemma SquaresCover(layout: seq<seq<int>>)
    requires Square8(layout)
    ensures |BoardSquares(layout, |layout|)| == 64
    ensures forall k :: 0 <= k < 64 ==> IsSquare(BoardSquares(layout, |layout|)[k])
    ensures forall i, j :: 0 <= i < j < 64 ==> BoardSquares(layout, |layout|)[i] != BoardSquares(layout, |layout|)[j]
    ensures forall x, y :: OnBoard(x, y) ==> CreateCoordinate(x, y) in BoardSquares(layout, |layout|)
  {
    BoardSquaresShape(layout, 8);
    forall x, y | OnBoard(x, y) ensures CreateCoordinate(x, y) in BoardSquares(layout, 8) {
      assert CreateCoordinate(x, y) == CellCoordinate(layout, 7 - x, y);
    }
  }

  // ---------------------------------------------------------------------
  // Pieces

  /** p is the piece its own layout cell makes: the cell at column 7 - file, row rank. */
  predicate Placed(layout: seq<seq<int>>, p: Piece) {
    Square8(layout) && IsSquare(p.coord) &&
    Cell(layout, 7 - GetXYIndices(p.coord).0, GetXYIndices(p.coord).1) == [p]
  }

  /** Every element of ps is placed by its cell and has a key in [lo, hi). */
  predicate PlacedBetween(layout: seq<seq<int>>, ps: seq<Piece>, lo: int, hi: int) {
    forall k :: 0 <= k < |ps| ==> Placed(layout, ps[k]) && lo <= Key(ps[k].coord) < hi
  }

  /** The keys of the coordinates of ps strictly increase. */
  predicate PieceKeysIncrease(ps: seq<Piece>) {
    forall i, j :: 0 <= i < j < |ps| ==> Key(ps[i].coord) < Key(ps[j].coord)
  }

  lemma PlacedAppend(layout: seq<seq<int>>, a: seq<Piece>, b: seq<Piece>, lo: int, mid: int, hi: int)
    requires lo <= mid <= hi && PlacedBetween(layout, a, lo, mid) && PlacedBetween(layout, b, mid, hi)
    requires PieceKeysIncrease(a) && PieceKeysIncrease(b)
    ensures PlacedBetween(layout, a + b, lo, hi) && PieceKeysIncrease(a + b)
  {
    var s := a + b;
    forall k | 0 <= k < |s| ensures Placed(layout, s[k]) && lo <= Key(s[k].coord) < hi {
      if k < |a| { assert s[k] == a[k]; } else { assert s[k] == b[k - |a|]; }
    }
    forall i, j | 0 <= i < j < |s| ensures Key(s[i].coord) < Key(s[j].coord) {
      if j < |a| {
        assert s[i] == a[i] && s[j] == a[j];
      } else if i < |a| {
        assert s[i] == a[i] && s[j] == b[j - |a|];
      } else {
        assert s[i] == b[i - |a|] && s[j] == b[j - |a|];
      }
    }
  }

  /** The pieces of cell (x, y): at most one, placed by that cell, with key 8y + x. */
  lemma CellShape(layout: seq<seq<int>>, x: int, y: int)
    requires Square8(layout) && 0 <= x < 8 && 0 <= y < 8
    ensures |Cell(layout, x, y)| <= 1
    ensures PlacedBetween(layout, Cell(layout, x, y), 8 * y + x, 8 * y + x + 1)
    ensures PieceKeysIncrease(Cell(layout, x, y))
  {
    CellSquare(layout, x, y);
  }

  /** Row y of the pieces: placed by their cells, in increasing key order within rank y, holding the piece of every cell x < n. */
  lemma {:induction false} RowPiecesShape(layout: seq<seq<int>>, y: int, n: int)
    requires Square8(layout) && 0 <= y < 8 && 0 <= n <= 8
    ensures PlacedBetween(layout, RowPieces(layout, y, n), 8 * y, 8 * y + n) && PieceKeysIncrease(RowPieces(layout, y, n))
    ensures forall x :: 0 <= x < n && Cell(layout, x, y) != [] ==> Cell(layout, x, y)[0] in RowPieces(layout, y, n)
  {
    if n > 0 {
      RowPiecesShape(layout, y, n - 1);
      CellShape(layout, n - 1, y);
      var row, cell := RowPieces(layout, y, n - 1), Cell(layout, n - 1, y);
      PlacedAppend(layout, row, cell, 8 * y, 8 * y + n - 1, 8 * y + n);
      forall x | 0 <= x < n && Cell(layout, x, y) != [] ensures Cell(layout, x, y)[0] in row + cell {
        if x < n - 1 {
          assert Cell(layout, x, y)[0] in row;
        } else {
          assert (row + cell)[|row|] == cell[0];
        }
      }
    }
  }

  /** The first `rows` rows of pieces: placed by their cells, in increasing key order, holding the piece of every cell. */
  lemma {:induction false} BoardPiecesShape(layout: seq<seq<int>>, rows: int)
    requires Square8(layout) && 0 <= rows <= 8
    ensures PlacedBetween(layout, BoardPieces(layout, rows), 0, 8 * rows) && PieceKeysIncrease(BoardPieces(layout, rows))
    ensures forall x, y :: 0 <= x < 8 && 0 <= y < rows && Cell(layout, x, y) != [] ==> Cell(layout, x, y)[0] in BoardPieces(layout, rows)
  {
    if rows > 0 {
      BoardPiecesShape(layout, rows - 1);
      RowPiecesShape(layout, rows - 1, 8);
      var board, row := BoardPieces(layout, rows - 1), RowPieces(layout, rows - 1, 8);
      PlacedAppend(layout, board, row, 0, 8 * (rows - 1), 8 * rows);
      forall x, y | 0 <= x < 8 && 0 <= y < rows && Cell(layout, x, y) != [] ensures Cell(layout, x, y)[0] in board + row {
        if y < rows - 1 {
          assert Cell(layout, x, y)[0] in board;
        } else {
          assert Cell(layout, x, y)[0] in row;
        }
      }
    }
  }

  /** The pieces of an 8 by 8 layout stand on distinct squares, each the piece its layout cell makes. */
  lemma PiecesPlaced(layout: seq<seq<int>>)
    requires Square8(layout)
    ensures OnSquares(BoardPieces(layout, |layout|)) && DistinctCoords(BoardPieces(layout, |layout|))
    ensures forall k :: 0 <= k < |BoardPieces(layout, |layout|)| ==> Placed(layout, BoardPieces(layout, |layout|)[k])
  {
    BoardPiecesShape(layout, 8);
  }

  /** The piece an 8 by 8 layout puts on the square of cell (x, y) is the one that cell makes, or none for an empty cell. */
  lemma PieceAtCell(layout: seq<seq<int>>, x: int, y: int)
    requires Square8(layout) && 0 <= x < 8 && 0 <= y < 8
    ensures Cell(layout, x, y) == [] ==> PieceAt(BoardPieces(layout, |layout|), CellCoordinate(layout, x, y)).None?
    ensures Cell(layout, x, y) != [] ==> PieceAt(BoardPieces(layout, |layout|), CellCoordinate(layout, x, y)) == Some(Cell(layout, x, y)[0])
  {
    BoardPiecesShape(layout, 8);
    CellSquare(layout, x, y);
    var ps, c := BoardPieces(layout, 8), CellCoordinate(layout, x, y);
    if Cell(layout, x, y) == [] {
      forall k | 0 <= k < |ps| ensures ps[k].coord != c {
        assert Placed(layout, ps[k]);
      }
      FindIndexSpec(ps, c);
    } else {
      var k :| 0 <= k < |ps| && ps[k] == Cell(layout, x, y)[0];
      PieceAtUnique(ps, k);
    }
  }

  // ---------------------------------------------------------------------
  // The start layout

  /** The cells of `_layout`: pieces 2..6 on rows 0 and 7, pawns on rows 1 and 6, nothing on rows 2 to 5. */
  lemma StartCells(layout: seq<seq<int>>, x: int, y: int)
    requires StartLayout(layout) && 0 <= x < 8 && 0 <= y < 8
    ensures (y == 0 || y == 7) ==> 2 <= layout[y][x] <= 6
    ensures (y == 1 || y == 6) ==> layout[y][x] == 1
    ensures 2 <= y <= 5 ==> layout[y][x] == 0
  {
    assert layout[y] == Layout[y];
    if y == 0 || y == 7 {
      assert layout[y] == [2, 3, 4, 6, 5, 4, 3, 2];
    } else if y == 1 || y == 6 {
      assert layout[y] == [1, 1, 1, 1, 1, 1, 1, 1];
    } else {
      assert layout[y] == [0, 0, 0, 0, 0, 0, 0, 0];
    }
  }

  /** A row of n cells that all hold a piece number gives n pieces; one whose cells are all empty gives none. */
  lemma {:induction false} RowCount(layout: seq<seq<int>>, y: int, n: int)
    requires Square8(layout) && 0 <= y < 8 && 0 <= n <= 8
    ensures (forall x :: 0 <= x < n ==> 1 <= layout[y][x] <= 6) ==> |RowPieces(layout, y, n)| == n
    ensures (forall x :: 0 <= x < n ==> layout[y][x] == 0) ==> |RowPieces(layout, y, n)| == 0
  {
    if n > 0 {
      RowCount(layout, y, n - 1);
      var v := layout[y][n - 1];
      assert 1 <= v <= 6 ==> KindOf(v).Some?;
      assert v == 0 ==> KindOf(v).None?;
    }
  }

  /** Row y of the start layout holds 8 pieces on ranks 1, 2, 7 and 8 and none on the others. */
  lemma StartRowCount(layout: seq<seq<int>>, y: int)
    requires StartLayout(layout) && 0 <= y < 8
    ensures |RowPieces(layout, y, 8)| == if 2 <= y <= 5 then 0 else 8
  {
    forall x | 0 <= x < 8 ensures 2 <= y <= 5 ==> layout[y][x] == 0
      ensures !(2 <= y <= 5) ==> 1 <= layout[y][x] <= 6
    {
      StartCells(layout, x, y);
    }
    RowCount(layout, y, 8);
  }

  /** The first `rows` rows of the start layout: 8 pieces per row on ranks 1, 2, 7 and 8. */
  lemma {:induction false} StartRowsCount(layout: seq<seq<int>>, rows: int)
    requires StartLayout(layout) && 0 <= rows <= 8
    ensures |BoardPieces(layout, rows)| == if rows <= 2 then 8 * rows else if rows <= 6 then 16 else 8 * rows - 32
  {
    if rows > 0 {
      StartRowsCount(layout, rows - 1);
      StartRowCount(layout, rows - 1);
    }
  }

  /** The start position has 32 pieces. */
  lemma StartCount(layout: seq<seq<int>>)
    requires StartLayout(layout)
    ensures |BoardPieces(layout, |layout|)| == 32
  {
    StartRowsCount(layout, 8);
  }

  /** p is unmoved, stands on rank 1, 2, 7 or 8, and is black exactly when it stands on rank 7 or 8. */
  predicate OnHomeRanks(p: Piece) {
    !p.hasMoved &&
    (GetXYIndices(p.coord).1 <= 1 || GetXYIndices(p.coord).1 >= 6) &&
    (p.side == Black <==> GetXYIndices(p.coord).1 > 4)
  }

  /** Every piece of the start position is unmoved, on its home ranks, and of the side of its ranks. */
  lemma StartRanksAndSides(layout: seq<seq<int>>)
    requires StartLayout(layout)
    ensures forall k :: 0 <= k < |BoardPieces(layout, |layout|)| ==> OnHomeRanks(BoardPieces(layout, |layout|)[k])
  {
    PiecesPlaced(layout);
    var ps := BoardPieces(layout, 8);
    forall k | 0 <= k < |ps| ensures OnHomeRanks(ps[k]) {
      var p := ps[k];
      assert Placed(layout, p);
      var x, y := 7 - GetXYIndices(p.coord).0, GetXYIndices(p.coord).1;
      StartCells(layout, x, y);
    }
  }

  /** The piece the start position has on square (f, r): the one layout cell (7 - f, r) makes, or none for an empty cell. */
  lemma StartPieceAt(layout: seq<seq<int>>, f: int, r: int)
    requires StartLayout(layout) && OnBoard(f, r)
    ensures KindOf(layout[r][7 - f]).None? ==> PieceAt(BoardPieces(layout, |layout|), CreateCoordinate(f, r)).None?
    ensures KindOf(layout[r][7 - f]).Some? ==>
              PieceAt(BoardPieces(layout, |layout|), CreateCoordinate(f, r)) ==
              Some(Piece(KindOf(layout[r][7 - f]).value, SideOfRow(r), CreateCoordinate(f, r), false))
  {
    PieceAtCell(layout, 7 - f, r);
    assert CellCoordinate(layout, 7 - f, r) == CreateCoordinate(f, r);
  }

  /** Rows 0 and 7 of the start layout are the back ranks. */
  lemma BackRanks(layout: seq<seq<int>>)
    requires StartLayout(layout)
    ensures layout[0] == [2, 3, 4, 6, 5, 4, 3, 2] && layout[7] == [2, 3, 4, 6, 5, 4, 3, 2]
  {
    assert layout[0] == Layout[0] && layout[7] == Layout[7];
  }

  /** The names of the squares the next lemmas speak of. */
  lemma SquareNames()
    ensures CreateCoordinate(4, 0) == "E1" && CreateCoordinate(3, 0) == "D1"
    ensures CreateCoordinate(4, 7) == "E8" && CreateCoordinate(3, 7) == "D8"
    ensures CreateCoordinate(0, 0) == "A1" && CreateCoordinate(7, 7) == "H8"
  {
  }

  /** The kinds the back ranks of the start layout hold in the columns of files E, D, A and H. */
  lemma BackRankKinds(layout: seq<seq<int>>)
    requires StartLayout(layout)
    ensures KindOf(layout[0][3]) == Some(King) && KindOf(layout[7][3]) == Some(King)
    ensures KindOf(layout[0][4]) == Some(Queen) && KindOf(layout[7][4]) == Some(Queen)
    ensures KindOf(layout[0][7]) == Some(Rook) && KindOf(layout[7][0]) == Some(Rook)
  {
    BackRanks(layout);
  }

  /** Column x holds file x_coord[7 - x], so the kings start on E1 and E8. */
  lemma StartKings(layout: seq<seq<int>>)
    requires StartLayout(layout)
    ensures PieceAt(BoardPieces(layout, |layout|), "E1") == Some(Piece(King, White, "E1", false))
    ensures PieceAt(BoardPieces(layout, |layout|), "E8") == Some(Piece(King, Black, "E8", false))
  {
    SquareNames();
    BackRankKinds(layout);
    StartPieceAt(layout, 4, 0);
    StartPieceAt(layout, 4, 7);
  }

  /** The queens start on D1 and D8. */
  lemma StartQueens(layout: seq<seq<int>>)
    requires StartLayout(layout)
    ensures PieceAt(BoardPieces(layout, |layout|), "D1") == Some(Piece(Queen, White, "D1", false))
    ensures PieceAt(BoardPieces(layout, |layout|), "D8") == Some(Piece(Queen, Black, "D8", false))
  {
    SquareNames();
    BackRankKinds(layout);
    StartPieceAt(layout, 3, 0);
    StartPieceAt(layout, 3, 7);
  }

  /** Rooks start in the corners A1 and H8. */
  lemma StartCorners(layout: seq<seq<int>>)
    requires StartLayout(layout)
    ensures PieceAt(BoardPieces(layout, |layout|), "A1") == Some(Piece(Rook, White, "A1", false))
    ensures PieceAt(BoardPieces(layout, |layout|), "H8") == Some(Piece(Rook, Black, "H8", false))
  {
    SquareNames();
    BackRankKinds(layout);
    StartPieceAt(layout, 0, 0);
    StartPieceAt(layout, 7, 7);
  }
}
