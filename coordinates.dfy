/**
 * Board coordinates of the client (public/src/Game/Piece.js).
 *
 * A coordinate is the two-character text `${x_coord[xi]}${y_coord[yi]}`,
 * file letter first. Indexing a JavaScript array outside its bounds gives
 * `undefined`, which the template literal turns into the text "undefined";
 * the model keeps that text so that the off-board strings the pawn-capture
 * code builds are represented exactly.
 *
 * The letters 'A'..'H' and the digits '1'..'8' are consecutive characters,
 * so the file and rank of a character are computed by subtraction; the
 * lemmas FileIndexIsFindIndex and FileTextIsLookup tie that arithmetic to
 * the array lookups the source performs.
 */
module Coordinates {
  import opened Wrappers

  /** x_coord: the file letters, by x index. */
  const Files: string := "ABCDEFGH"
  /** The rank digits, by y index, as they appear in a coordinate. */
  const Ranks: string := "12345678"
  /** y_coord: the rank numbers, by y index. */
  const RankValues: seq<int> := [1, 2, 3, 4, 5, 6, 7, 8]

  /** The text a template literal makes of `undefined`. */
  const Undefined: string := "undefined"

  predicate OnBoard(xi: int, yi: int) {
    0 <= xi < 8 && 0 <= yi < 8
  }

  /** A coordinate that names one of the 64 squares. */
  predicate IsSquare(c: string) {
    |c| == 2 && 'A' <= c[0] <= 'H' && '1' <= c[1] <= '8'
  }

  /** The text of `x_coord[xi]` inside a template literal. */
  function FileText(xi: int): string {
    if 0 <= xi < 8 then [('A' as int + xi) as char] else Undefined
  }

  /** The text of `y_coord[yi]` inside a template literal. */
  function RankText(yi: int): string {
    if 0 <= yi < 8 then [('1' as int + yi) as char] else Undefined
  }

  /** CreateCoordinate: the square with indices (xi, yi), or a text holding "undefined" off the board. */
  function CreateCoordinate(xi: int, yi: int): (r: string)
    ensures IsSquare(r) <==> OnBoard(xi, yi)
  {
    FileText(xi) + RankText(yi)
  }

  /** `x_coord.findIndex(xi => xi == ch)`: the index of a file letter, -1 for any other character. */
  function FileIndex(ch: char): int {
    if 'A' <= ch <= 'H' then ch as int - 'A' as int else -1
  }

  /**
   * `y_coord.findIndex(yi => yi == parseInt(ch))`: parseInt of a single digit
   * is its value, which y_coord holds at index value - 1; any other character
   * parses to NaN, which equals nothing.
   */
  function RankIndex(ch: char): int {
    if '1' <= ch <= '8' then ch as int - '1' as int else -1
  }

  /**
   * GetXYIndices: the file index of the first character and the rank index
   * of the second, each -1 when it is missing or not found; later characters
   * are ignored.
   */
  function GetXYIndices(c: string): (r: (int, int))
    ensures -1 <= r.0 < 8 && -1 <= r.1 < 8
    ensures IsSquare(c) ==> OnBoard(r.0, r.1)
  {
    (if |c| >= 1 then FileIndex(c[0]) else -1,
     if |c| >= 2 then RankIndex(c[1]) else -1)
  }

  /** `parseInt` of a one-character string: the value of a digit, or NaN (None), which equals no number. */
  function ParseDigit(ch: char): Option<int> {
    if '0' <= ch <= '9' then Some(ch as int - '0' as int) else None
  }

  /** Array.prototype.findIndex by equality on the elements of `s`: the first position of `ch`, or -1. */
  function IndexOf<T(==)>(s: seq<T>, ch: T): (i: int)
    ensures -1 <= i < |s|
  {
    if s == [] then -1
    else if s[0] == ch then 0
    else
      var i := IndexOf(s[1..], ch);
      if i < 0 then -1 else i + 1
  }

  /** IndexOf is -1 exactly when `ch` does not occur, and otherwise the first position of `ch`. */
  lemma {:induction false} IndexOfSpec<T>(s: seq<T>, ch: T)
    ensures IndexOf(s, ch) == -1 <==> ch !in s
    ensures 0 <= IndexOf(s, ch) ==> s[IndexOf(s, ch)] == ch && forall k :: 0 <= k < IndexOf(s, ch) ==> s[k] != ch
  {
    if s != [] && s[0] != ch {
      IndexOfSpec(s[1..], ch);
      assert ch in s <==> ch in s[1..];
      var i := IndexOf(s[1..], ch);
      if 0 <= i {
        forall k | 0 <= k < i + 1 ensures s[k] != ch {
          if k > 0 { assert s[k] == s[1..][k - 1]; }
        }
      }
    }
  }

  /** Files[k] is the k-th letter after 'A', and Ranks[k] the k-th digit after '1'. */
  lemma FilesConsecutive(k: int)
    requires 0 <= k < 8
    ensures Files[k] == ('A' as int + k) as char && Ranks[k] == ('1' as int + k) as char
  {
    if k == 0 {} else if k == 1 {} else if k == 2 {} else if k == 3 {}
    else if k == 4 {} else if k == 5 {} else if k == 6 {} else {}
  }

  /** The subtraction in FileIndex is the findIndex over x_coord that the source performs. */
  lemma FileIndexIsFindIndex(ch: char)
    ensures FileIndex(ch) == IndexOf(Files, ch)
  {
    IndexOfSpec(Files, ch);
    var i := IndexOf(Files, ch);
    if 0 <= i { FilesConsecutive(i); }
    if 'A' <= ch <= 'H' {
      var k := ch as int - 'A' as int;
      FilesConsecutive(k);
    }
  }

  /** RankValues[k] is the number k + 1. */
  lemma RankValuesAt(k: int)
    requires 0 <= k < 8
    ensures RankValues[k] == k + 1
  {
    if k == 0 {} else if k == 1 {} else if k == 2 {} else if k == 3 {}
    else if k == 4 {} else if k == 5 {} else if k == 6 {} else {}
  }

  /** The subtraction in RankIndex is the source's `y_coord.findIndex(yi => yi == parseInt(ch))`. */
  lemma RankIndexIsFindIndex(ch: char)
    ensures RankIndex(ch) == if ParseDigit(ch).Some? then IndexOf(RankValues, ParseDigit(ch).value) else -1
  {
    if ParseDigit(ch).Some? {
      var v := ParseDigit(ch).value;
      IndexOfSpec(RankValues, v);
      var i := IndexOf(RankValues, v);
      if 0 <= i { RankValuesAt(i); }
      if 1 <= v <= 8 { RankValuesAt(v - 1); }
    }
  }

  /** On the board, FileText and RankText are the one-character lookups x_coord[xi] and y_coord[yi]. */
  lemma FileTextIsLookup(xi: int, yi: int)
    requires OnBoard(xi, yi)
    ensures FileText(xi) == [Files[xi]] && RankText(yi) == [Ranks[yi]]
  {
    FilesConsecutive(xi);
    FilesConsecutive(yi);
  }

  /** Decoding an encoded square gives back its indices. */
  lemma EncodeDecode(xi: int, yi: int)
    requires OnBoard(xi, yi)
    ensures GetXYIndices(CreateCoordinate(xi, yi)) == (xi, yi)
  {
  }

  /** Encoding the decoded indices of a square gives back the square; the indices are on the board. */
  lemma DecodeEncode(c: string)
    requires IsSquare(c)
    ensures OnBoard(GetXYIndices(c).0, GetXYIndices(c).1)
    ensures CreateCoordinate(GetXYIndices(c).0, GetXYIndices(c).1) == c
  {
    var (xi, yi) := GetXYIndices(c);
    assert CreateCoordinate(xi, yi) == [c[0], c[1]];
  }

  /** Distinct on-board indices give distinct coordinates. */
  lemma EncodeInjective(x1: int, y1: int, x2: int, y2: int)
    requires OnBoard(x1, y1) && OnBoard(x2, y2)
    ensures CreateCoordinate(x1, y1) == CreateCoordinate(x2, y2) <==> x1 == x2 && y1 == y2
  {
    if CreateCoordinate(x1, y1) == CreateCoordinate(x2, y2) {
      EncodeDecode(x1, y1);
      EncodeDecode(x2, y2);
    }
  }
}
