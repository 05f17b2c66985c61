/** The board view's layout (Board.renderBoard): three rows of three squares, the square at
    row r and column c being board index 3 * r + c, plus the 1-based move coordinates that a
    click on that square records. */
module BoardView {
  import opened Cells

  /** What renderSquare hands to one square: the index its click reports and the value it shows. */
  datatype SquareProps = SquareProps(index: nat, value: Cell)

  /** renderBoard: nested loops over rows and columns with a running index. */
  method RenderBoard(squares: Board) returns (rows: seq<seq<SquareProps>>)
    requires |squares| == 9
    ensures |rows| == 3
    ensures forall r :: 0 <= r < 3 ==> |rows[r]| == 3
    ensures forall r, c :: 0 <= r < 3 && 0 <= c < 3 ==>
              rows[r][c] == SquareProps(3 * r + c, squares[3 * r + c])
  {
    rows := [];
    var currentIndex := 0;
    var i := 0;
    while i < 3
      invariant 0 <= i <= 3
      invariant currentIndex == 3 * i
      invariant |rows| == i
      invariant forall r :: 0 <= r < i ==> |rows[r]| == 3
      invariant forall r, c :: 0 <= r < i && 0 <= c < 3 ==>
                  rows[r][c] == SquareProps(3 * r + c, squares[3 * r + c])
    {
      var rowSquares := [];
      var j := 0;
      while j < 3
        invariant 0 <= j <= 3
        invariant currentIndex == 3 * i + j
        invariant |rowSquares| == j
        invariant forall c :: 0 <= c < j ==>
                    rowSquares[c] == SquareProps(3 * i + c, squares[3 * i + c])
      {
        rowSquares := rowSquares + [SquareProps(currentIndex, squares[currentIndex])];
        currentIndex := currentIndex + 1;
        j := j + 1;
      }
      rows := rows + [rowSquares];
      i := i + 1;
    }
  }

  /** The coordinates a move on square `i` records: row = floor(i / 3) + 1, column = i % 3 + 1. */
  function RowOf(i: nat): nat { i / 3 + 1 }
  function ColumnOf(i: nat): nat { i % 3 + 1 }

  /** The square named by 1-based coordinates. */
  function CellAt(row: int, column: int): int { 3 * (row - 1) + (column - 1) }

  /** Recorded coordinates lie in 1..3 and name the square that was clicked. */
  lemma CoordinatesRoundTrip(i: nat)
    requires i < 9
    ensures 1 <= RowOf(i) <= 3 && 1 <= ColumnOf(i) <= 3
    ensures CellAt(RowOf(i), ColumnOf(i)) == i
  {
  }

  /** The square drawn at grid row r, column c records exactly (r + 1, c + 1) when clicked,
      so the layout of renderBoard and the coordinates of the move list agree. */
  lemma {:induction false} GridMatchesCoordinates(r: nat, c: nat)
    requires r < 3 && c < 3
    ensures RowOf(3 * r + c) == r + 1 && ColumnOf(3 * r + c) == c + 1
  {
    assert (3 * r + c) / 3 == r by {
      assert 3 * r <= 3 * r + c < 3 * (r + 1);
    }
  }
}
