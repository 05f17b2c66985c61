/** The Game component: the object that owns the mutable state and whose click handlers
    replace it, one event at a time. Every handler is proved to perform the transition of
    GameLogic on the abstract state, so the lemmas there describe what it does. */
module GameComponent {
  import opened Cells
  import opened WinDetector
  import opened BoardView
  import opened GameLogic

  class Game {
    var history: seq<MoveRecord>
    var stepNumber: int
    var xIsNext: bool

    /** The component's state as a value. */
    function State(): GameState
      reads this
    {
      GameState(history, stepNumber, xIsNext)
    }

    ghost predicate Valid()
      reads this
    {
      Good(State())
    }

    /** A new game: one record with the empty board and no coordinates, step 0, X to move. */
    constructor ()
      ensures Valid() && State() == Initial()
    {
      history := [MoveRecord(EmptyBoard(), Unset)];
      stepNumber := 0;
      xIsNext := true;
      new;
      InitialIsGood();
    }

    /** handleClick(i): ignore the click when the displayed board is won or square i is taken;
        otherwise drop the records after the current step, append the board with the mover's
        mark on square i and the move's 1-based coordinates, step onto it and hand the turn over. */
    method HandleClick(i: int)
      requires Valid() && 0 <= i < 9
      modifies this
      ensures Valid() && State() == Click(old(State()), i)
      ensures old(Blocked(State(), i)) ==> unchanged(this)
      ensures !old(Blocked(State(), i)) ==>
                history == old(history[..stepNumber + 1]) +
                           [MoveRecord(old(CurrentBoard(State()))[i := Mark(MarkFor(old(xIsNext)))],
                                       At(i / 3 + 1, i % 3 + 1))] &&
                stepNumber == |history| - 1 == old(stepNumber) + 1 &&
                xIsNext == !old(xIsNext)
    {
      ghost var before := State();
      var hist := history[..stepNumber + 1];
      var current := hist[|hist| - 1];
      var squares := current.squares;
      assert squares == CurrentBoard(before);
      var winner := CalculateWinner(squares);
      if winner.Some? || squares[i] != Empty {
        BlockedClick(before, i);
        return;
      }
      squares := squares[i := Mark(if xIsNext then X else O)];
      var record := MoveRecord(squares, At(i / 3 + 1, i % 3 + 1));
      AcceptedClickBuilt(before, i, hist, record);
      history := hist + [record];
      stepNumber := |hist|;
      xIsNext := !xIsNext;
    }

    /** jumpTo(step): show the board recorded at `step` and give the turn by its parity; the
        history is kept, so play can branch from there. */
    method JumpTo(step: int)
      requires Valid() && 0 <= step < |history|
      modifies this
      ensures Valid() && State() == Jump(old(State()), step)
      ensures history == old(history) && stepNumber == step && xIsNext == (step % 2 == 0)
    {
      ghost var before := State();
      JumpPreservesGood(before, step);
      stepNumber := step;
      xIsNext := (step % 2) == 0;
    }

    /** render, without the markup: the rows of squares handed to the board, the line to
        highlight, and the status line. */
    method Render() returns (rows: seq<seq<SquareProps>>, winningLine: Option<Line>, status: Status)
      requires Valid()
      ensures |rows| == 3 && forall r :: 0 <= r < 3 ==> |rows[r]| == 3
      ensures forall r, c :: 0 <= r < 3 && 0 <= c < 3 ==>
                rows[r][c] == SquareProps(3 * r + c, history[stepNumber].squares[3 * r + c])
      ensures status == StatusOf(State())
      ensures winningLine.Some? <==> status.Winner?
      ensures winningLine == (if CalculateWinner(CurrentBoard(State())).Some?
                              then Some(CalculateWinner(CurrentBoard(State())).value.line) else None)
      ensures winningLine.Some? ==>
                winningLine.value in Lines &&
                Qualifies(history[stepNumber].squares, winningLine.value) &&
                history[stepNumber].squares[winningLine.value.a] == Mark(status.sym)
    {
      var current := history[stepNumber];
      var winner := ScanForWinner(current.squares);
      if winner.Some? {
        status := Winner(winner.value.winner);
        winningLine := Some(winner.value.line);
        WinnerOwnsLine(current.squares);
      } else if stepNumber == 9 {
        status := Draw;
        winningLine := None;
      } else {
        status := Next(if xIsNext then X else O);
        winningLine := None;
      }
      rows := RenderBoard(current.squares);
    }
  }
}
