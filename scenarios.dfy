/** Concrete games played through the model: a win down the first column after which clicks
    are ignored, a replay from the start, and a drawn game. */
module Scenarios {
  import opened Cells
  import opened WinDetector
  import opened GameLogic
  import opened GameComponent

  /** None of the eight lines of `b` is complete, spelled out line by line. */
  predicate NoCompleteLine(b: Board)
  {
    !Qualifies(b, Line(0, 1, 2)) && !Qualifies(b, Line(3, 4, 5)) &&
    !Qualifies(b, Line(6, 7, 8)) && !Qualifies(b, Line(0, 3, 6)) &&
    !Qualifies(b, Line(1, 4, 7)) && !Qualifies(b, Line(2, 5, 8)) &&
    !Qualifies(b, Line(0, 4, 8)) && !Qualifies(b, Line(2, 4, 6))
  }

  lemma NoLine(b: Board)
    requires NoCompleteLine(b)
    ensures CalculateWinner(b) == None
  {
    forall k | 0 <= k < |Lines| ensures !Qualifies(b, Lines[k]) {
    }
  }

  /** The game is at the end of its history, at step `step`, showing board `b`. */
  ghost predicate Shows(game: Game, step: int, b: Board)
    reads game
  {
    game.Valid() && game.stepNumber == |game.history| - 1 == step &&
    game.history[step].squares == b
  }

  /** One accepted click made at the end of the history, on a board with no winner. */
  method Move(game: Game, i: int, ghost step: int, ghost b: Board)
    requires Shows(game, step, b) && 0 <= i < 9 && b[i] == Empty && NoCompleteLine(b)
    modifies game
    ensures Shows(game, step + 1, b[i := Mark(PlayerForStep(step))])
  {
    NoLine(b);
    game.HandleClick(i);
  }

  const E := Empty
  const x := Mark(X)
  const o := Mark(O)

  /** X plays 0 and O plays 1 on a new game. */
  method Open() returns (game: Game)
    ensures fresh(game) && Shows(game, 2, [x, o, E, E, E, E, E, E, E])
  {
    game := new Game();
    Move(game, 0, 0, EmptyBoard());
    Move(game, 1, 1, [x, E, E, E, E, E, E, E, E]);
  }

  /** Then X plays 3 and O plays 4. */
  method ColumnMiddle(game: Game)
    requires Shows(game, 2, [x, o, E, E, E, E, E, E, E])
    modifies game
    ensures Shows(game, 4, [x, o, E, x, o, E, E, E, E])
  {
    Move(game, 3, 2, [x, o, E, E, E, E, E, E, E]);
    Move(game, 4, 3, [x, o, E, x, E, E, E, E, E]);
  }

  /** Then X plays 6 and completes the first column. */
  method ColumnEnd(game: Game)
    requires Shows(game, 4, [x, o, E, x, o, E, E, E, E])
    modifies game
    ensures Shows(game, 5, [x, o, E, x, o, E, x, E, E])
  {
    Move(game, 6, 4, [x, o, E, x, o, E, E, E, E]);
  }

  /** X takes the first column (squares 0, 3, 6): the status reads "Winner: X" on line 0-3-6 and
      a further click is ignored. */
  method ColumnWin() returns (game: Game)
    ensures fresh(game) && Shows(game, 5, [x, o, E, x, o, E, x, E, E])
  {
    game := Open();
    ColumnMiddle(game);
    ColumnEnd(game);
    var b5 := [x, o, E, x, o, E, x, E, E];
    assert FirstWinningLine(b5, 0) == 3 by {
      assert !Qualifies(b5, Lines[0]) && !Qualifies(b5, Lines[1]) && !Qualifies(b5, Lines[2]);
      assert Qualifies(b5, Lines[3]);
    }
    var rows, line, status := game.Render();
    assert status == Winner(X) && line == Some(Line(0, 3, 6));
    var before := game.State();
    game.HandleClick(8);
    assert game.State() == before;
  }

  /** After the win, jumping back to the start shows the empty board with X to move, and a move
      from there discards the old game. */
  method ReplayFromStart()
  {
    var game := ColumnWin();
    game.JumpTo(0);
    var rows, line, status := game.Render();
    ChainBoards(game.history, 0);
    assert game.history[game.stepNumber].squares == EmptyBoard();
    assert status == Next(X);
    game.HandleClick(4);
    assert |game.history| == 2 && game.stepNumber == 1;
  }

  /** From the opening, X plays 2 and O plays 4. */
  method DrawTop(game: Game)
    requires Shows(game, 2, [x, o, E, E, E, E, E, E, E])
    modifies game
    ensures Shows(game, 4, [x, o, x, E, o, E, E, E, E])
  {
    Move(game, 2, 2, [x, o, E, E, E, E, E, E, E]);
    Move(game, 4, 3, [x, o, x, E, E, E, E, E, E]);
  }

  /** Then X plays 3 and O plays 5. */
  method DrawMiddle(game: Game)
    requires Shows(game, 4, [x, o, x, E, o, E, E, E, E])
    modifies game
    ensures Shows(game, 6, [x, o, x, x, o, o, E, E, E])
  {
    Move(game, 3, 4, [x, o, x, E, o, E, E, E, E]);
    Move(game, 5, 5, [x, o, x, x, o, E, E, E, E]);
  }

  /** Then X plays 7 and O plays 6. */
  method DrawBottom(game: Game)
    requires Shows(game, 6, [x, o, x, x, o, o, E, E, E])
    modifies game
    ensures Shows(game, 8, [x, o, x, x, o, o, o, x, E])
  {
    Move(game, 7, 6, [x, o, x, x, o, o, E, E, E]);
    Move(game, 6, 7, [x, o, x, x, o, o, E, x, E]);
  }

  /** X fills the last square, 8. */
  method DrawLast(game: Game)
    requires Shows(game, 8, [x, o, x, x, o, o, o, x, E])
    modifies game
    ensures Shows(game, 9, [x, o, x, x, o, o, o, x, x])
  {
    Move(game, 8, 8, [x, o, x, x, o, o, o, x, E]);
  }

  /** Nine moves that fill the board without a line: the status reads "Draw!". */
  method DrawnGame()
  {
    var game := Open();
    DrawTop(game);
    DrawMiddle(game);
    DrawBottom(game);
    DrawLast(game);
    NoLine([x, o, x, x, o, o, o, x, x]);
    var rows, line, status := game.Render();
    assert status == Draw;
  }

  /** X plays 0 and O plays 3 on a new game. */
  method TwoLinesOpen() returns (game: Game)
    ensures fresh(game) && Shows(game, 2, [x, E, E, o, E, E, E, E, E])
  {
    game := new Game();
    Move(game, 0, 0, EmptyBoard());
    Move(game, 3, 1, [x, E, E, E, E, E, E, E, E]);
  }

  /** Then X plays 1 and O plays 5. */
  method TwoLinesSides(game: Game)
    requires Shows(game, 2, [x, E, E, o, E, E, E, E, E])
    modifies game
    ensures Shows(game, 4, [x, x, E, o, E, o, E, E, E])
  {
    Move(game, 1, 2, [x, E, E, o, E, E, E, E, E]);
    Move(game, 5, 3, [x, x, E, o, E, E, E, E, E]);
  }

  /** Then X plays 4 and O plays 7. */
  method TwoLinesCentre(game: Game)
    requires Shows(game, 4, [x, x, E, o, E, o, E, E, E])
    modifies game
    ensures Shows(game, 6, [x, x, E, o, x, o, E, o, E])
  {
    Move(game, 4, 4, [x, x, E, o, E, o, E, E, E]);
    Move(game, 7, 5, [x, x, E, o, x, o, E, E, E]);
  }

  /** Then X plays 6 and O plays 8. */
  method TwoLinesCorners(game: Game)
    requires Shows(game, 6, [x, x, E, o, x, o, E, o, E])
    modifies game
    ensures Shows(game, 8, [x, x, E, o, x, o, x, o, o])
  {
    Move(game, 6, 6, [x, x, E, o, x, o, E, o, E]);
    Move(game, 8, 7, [x, x, E, o, x, o, x, o, E]);
  }

  /** X's last move, on square 2, completes the top row and the diagonal 2-4-6 at once; the
      line handed to the board is the top row, the first complete line in scan order. */
  method TwoLinesAtOnce()
  {
    var game := TwoLinesOpen();
    TwoLinesSides(game);
    TwoLinesCentre(game);
    TwoLinesCorners(game);
    Move(game, 2, 8, [x, x, E, o, x, o, x, o, o]);
    var b := [x, x, x, o, x, o, x, o, o];
    assert game.history[game.stepNumber].squares == b;
    assert Qualifies(b, Lines[0]) && Qualifies(b, Lines[7]);
    var rows, line, status := game.Render();
    assert status == Winner(X) && line == Some(Line(0, 1, 2));
  }
}
