/** The win detector (calculateWinner): scans the eight fixed lines of the board in a fixed
    order and reports the first one whose three squares hold the same mark. */
module WinDetector {
  import opened Cells

  datatype Option<T> = None | Some(value: T)

  /** Three square indices forming a row, a column or a diagonal. */
  datatype Line = Line(a: nat, b: nat, c: nat)

  /** A detected win: the winning symbol and the line that carries it. */
  datatype WinResult = WinResult(winner: Player, line: Line)

  /** The lines in scan order: three rows, three columns, two diagonals. */
  const Lines: seq<Line> := [
    Line(0, 1, 2), Line(3, 4, 5), Line(6, 7, 8),
    Line(0, 3, 6), Line(1, 4, 7), Line(2, 5, 8),
    Line(0, 4, 8), Line(2, 4, 6)
  ]

  /** The three squares of `l` lie on `b`, are non-empty and hold the same mark. */
  predicate Qualifies(b: Board, l: Line)
  {
    l.a < |b| && l.b < |b| && l.c < |b| &&
    b[l.a] != Empty && b[l.a] == b[l.b] && b[l.a] == b[l.c]
  }

  /** Some line of the table is complete on `b`. */
  predicate HasLine(b: Board)
  {
    exists k {:trigger Qualifies(b, Lines[k])} :: 0 <= k < |Lines| && Qualifies(b, Lines[k])
  }

  /** Index of the first qualifying line at or after `from`, or |Lines| when there is none. */
  function FirstWinningLine(b: Board, from: nat): (k: nat)
    requires from <= |Lines|
    ensures from <= k <= |Lines|
    ensures k < |Lines| ==> Qualifies(b, Lines[k])
    ensures forall j {:trigger Qualifies(b, Lines[j])} :: from <= j < k ==> !Qualifies(b, Lines[j])
    decreases |Lines| - from
  {
    if from == |Lines| then from
    else if Qualifies(b, Lines[from]) then from
    else FirstWinningLine(b, from + 1)
  }

  /** calculateWinner: the first qualifying line with its symbol, or None when no line qualifies. */
  function CalculateWinner(b: Board): (r: Option<WinResult>)
    ensures r.Some? ==>
              Qualifies(b, r.value.line) && b[r.value.line.a] == Mark(r.value.winner)
    ensures r.Some? ==>
              exists k :: 0 <= k < |Lines| && Lines[k] == r.value.line &&
                          forall j {:trigger Qualifies(b, Lines[j])} :: 0 <= j < k ==> !Qualifies(b, Lines[j])
    ensures r.None? <==> !HasLine(b)
  {
    var k := FirstWinningLine(b, 0);
    if k == |Lines| then None
    else Some(WinResult(b[Lines[k].a].player, Lines[k]))
  }

  /** The loop of calculateWinner with its early return, proved to compute CalculateWinner. */
  method ScanForWinner(squares: Board) returns (r: Option<WinResult>)
    ensures r == CalculateWinner(squares)
  {
    var i := 0;
    while i < |Lines|
      invariant 0 <= i <= |Lines|
      invariant forall j :: 0 <= j < i ==> !Qualifies(squares, Lines[j])
    {
      var line := Lines[i];
      if line.a < |squares| && line.b < |squares| && line.c < |squares| &&
         squares[line.a] != Empty && squares[line.a] == squares[line.b] &&
         squares[line.a] == squares[line.c]
      {
        return Some(WinResult(squares[line.a].player, line));
      }
      i := i + 1;
    }
    return None;
  }

  /** Every reported win is a line of the fixed table whose squares all hold the winner's mark. */
  lemma WinnerOwnsLine(b: Board)
    requires CalculateWinner(b).Some?
    ensures var w := CalculateWinner(b).value;
            w.line in Lines &&
            b[w.line.a] == Mark(w.winner) && b[w.line.b] == Mark(w.winner) &&
            b[w.line.c] == Mark(w.winner)
  {
  }

  /** The empty starting board has no winner. */
  lemma NoWinnerOnEmptyBoard()
    ensures CalculateWinner(EmptyBoard()) == None
  {
  }
}
