/** The game controller's state machine as values: the state the Game component holds
    (history, stepNumber, xIsNext), the two transitions (handleClick, jumpTo), the status
    shown by render, and the invariant every reachable state keeps. */
module GameLogic {
  import opened Cells
  import opened WinDetector
  import opened BoardView

  /** moveCoordinates of a history record; the initial record has none (row and column null). */
  datatype Coordinates = Unset | At(row: nat, column: nat)

  /** One history record: the board after a move and the 1-based coordinates of that move. */
  datatype MoveRecord = MoveRecord(squares: Board, moveCoordinates: Coordinates)

  /** The Game component's state. */
  datatype GameState = GameState(history: seq<MoveRecord>, stepNumber: int, xIsNext: bool)

  /** The status line of render: a winner, a draw, or the player to move. */
  datatype Status = Winner(sym: Player) | Draw | Next(sym: Player)

  function InitialRecord(): MoveRecord
  {
    MoveRecord(EmptyBoard(), Unset)
  }

  /** The state set up by the Game constructor. */
  function Initial(): GameState
  {
    GameState([InitialRecord()], 0, true)
  }

  /** The player who moves from step `step`: X on even steps, O on odd ones. */
  function PlayerForStep(step: int): Player
  {
    if step % 2 == 0 then X else O
  }

  /** `next` is the record of one accepted move made from `prev` at step `step`: `prev` has no
      winner, the recorded square was empty, and exactly that square now holds the mover's mark. */
  predicate Follows(prev: MoveRecord, next: MoveRecord, step: int)
  {
    |prev.squares| == 9 && next.moveCoordinates.At? &&
    1 <= next.moveCoordinates.row <= 3 && 1 <= next.moveCoordinates.column <= 3 &&
    var i := CellAt(next.moveCoordinates.row, next.moveCoordinates.column);
    !HasLine(prev.squares) && prev.squares[i] == Empty &&
    next.squares == prev.squares[i := Mark(PlayerForStep(step))]
  }

  /** A history that starts from the empty board and grows one accepted move at a time. */
  predicate Chain(h: seq<MoveRecord>)
    decreases |h|
  {
    if |h| <= 1 then h == [InitialRecord()]
    else Chain(h[..|h| - 1]) && Follows(h[|h| - 2], h[|h| - 1], |h| - 2)
  }

  /** The invariant of every reachable state: a legal history, a step inside it, and the
      xIsNext flag in step with the parity of the step. */
  predicate Good(s: GameState)
  {
    Chain(s.history) && Displayable(s) && s.xIsNext == (s.stepNumber % 2 == 0)
  }

  /** The step points into the history, at a board of nine squares. */
  predicate Displayable(s: GameState)
  {
    0 <= s.stepNumber < |s.history| && |s.history[s.stepNumber].squares| == 9
  }

  /** The board on display: history[stepNumber].squares. */
  function CurrentBoard(s: GameState): Board
    requires 0 <= s.stepNumber < |s.history|
  {
    s.history[s.stepNumber].squares
  }

  /** A click on square `i` is ignored: the displayed board already has a winner, or the square
      is taken. */
  predicate Blocked(s: GameState, i: int)
    requires Displayable(s) && 0 <= i < 9
  {
    CalculateWinner(CurrentBoard(s)).Some? || CurrentBoard(s)[i] != Empty
  }

  /** The record an accepted click on square `i` appends: the displayed board with the mover's
      mark on square i, and the 1-based coordinates of i. */
  function AcceptedRecord(s: GameState, i: int): MoveRecord
    requires Displayable(s) && 0 <= i < 9
  {
    MoveRecord(CurrentBoard(s)[i := Mark(MarkFor(s.xIsNext))], At(RowOf(i), ColumnOf(i)))
  }

  /** handleClick(i): a blocked click returns the state unchanged; otherwise the history is cut
      after the current step and the new record appended, the step moves onto it and the turn
      passes. */
  function Click(s: GameState, i: int): GameState
    requires Displayable(s) && 0 <= i < 9
  {
    if Blocked(s, i) then s
    else
      var history := s.history[..s.stepNumber + 1];
      GameState(history + [AcceptedRecord(s, i)], |history|, !s.xIsNext)
  }

  /** jumpTo(step) */
  function Jump(s: GameState, step: int): GameState
  {
    GameState(s.history, step, step % 2 == 0)
  }

  /** The status selection of render. */
  function StatusOf(s: GameState): Status
    requires 0 <= s.stepNumber < |s.history|
  {
    var winner := CalculateWinner(CurrentBoard(s));
    if winner.Some? then Winner(winner.value.winner)
    else if s.stepNumber == 9 then Draw
    else Next(MarkFor(s.xIsNext))
  }

  // ---------------------------------------------------------------------------------------
  // The invariant

  lemma InitialIsGood()
    ensures Good(Initial())
    ensures CurrentBoard(Initial()) == EmptyBoard() && StatusOf(Initial()) == Next(X)
  {
    NoWinnerOnEmptyBoard();
  }

  lemma EmptyBoardCounts()
    ensures Count(EmptyBoard(), Empty) == 9
    ensures Count(EmptyBoard(), Mark(X)) == 0 && Count(EmptyBoard(), Mark(O)) == 0
  {
    var e := EmptyBoard();
    assert e[1..][1..][1..][1..][1..][1..][1..][1..][1..] == [];
  }

  /** Every non-empty prefix of a legal history is legal. */
  lemma {:induction false} ChainPrefix(h: seq<MoveRecord>, n: nat)
    requires Chain(h) && 1 <= n <= |h|
    ensures Chain(h[..n])
    decreases |h|
  {
    if n < |h| {
      var front := h[..|h| - 1];
      ChainPrefix(front, n);
      assert front[..n] == h[..n];
    } else {
      assert h[..n] == h;
    }
  }

  /** Record k of a legal history is one accepted move made from record k - 1 at step k - 1. */
  lemma ChainStep(h: seq<MoveRecord>, k: int)
    requires Chain(h) && 0 < k < |h|
    ensures Follows(h[k - 1], h[k], k - 1)
  {
    ChainPrefix(h, k + 1);
    var front := h[..k + 1];
    assert front[k - 1] == h[k - 1] && front[k] == h[k];
  }

  /** A legal history starts with the initial record, and every board in it has nine squares. */
  lemma ChainBoards(h: seq<MoveRecord>, k: int)
    requires Chain(h) && 0 <= k < |h|
    ensures h[0] == InitialRecord() && |h[k].squares| == 9
  {
    ChainPrefix(h, 1);
    assert h[..1][0] == h[0];
    if k > 0 {
      ChainStep(h, k);
    }
  }

  /** The square played between records k - 1 and k of a legal history. */
  lemma PlayedSquare(h: seq<MoveRecord>, k: int) returns (i: nat)
    requires Chain(h) && 0 < k < |h|
    ensures |h[k - 1].squares| == 9 && i < 9 && h[k - 1].squares[i] == Empty
    ensures h[k].squares == h[k - 1].squares[i := Mark(PlayerForStep(k - 1))]
  {
    ChainStep(h, k);
    i := CellAt(h[k].moveCoordinates.row, h[k].moveCoordinates.column);
  }

  /** Playing an empty square empties one square less and adds one mark of the mover. */
  lemma MoveCounts(prev: Board, i: nat, p: Player)
    requires i < |prev| && prev[i] == Empty
    ensures Count(prev[i := Mark(p)], Empty) == Count(prev, Empty) - 1
    ensures Count(prev[i := Mark(p)], Mark(X)) == Count(prev, Mark(X)) + (if p == X then 1 else 0)
    ensures Count(prev[i := Mark(p)], Mark(O)) == Count(prev, Mark(O)) + (if p == O then 1 else 0)
  {
    CountUpdate(prev, i, Mark(p), Empty);
    CountUpdate(prev, i, Mark(p), Mark(X));
    CountUpdate(prev, i, Mark(p), Mark(O));
  }

  /** How ceil(n / 2) and floor(n / 2) grow from step n - 1 to step n. */
  lemma HalfSteps(n: nat)
    requires n > 0
    ensures PlayerForStep(n - 1) == X ==> (n + 1) / 2 == n / 2 + 1 && n / 2 == (n - 1) / 2
    ensures PlayerForStep(n - 1) == O ==> (n + 1) / 2 == n / 2 && n / 2 == (n - 1) / 2 + 1
  {
  }

  /** Along a legal history, the board at step k holds 9 - k empty squares, ceil(k / 2) X marks
      and floor(k / 2) O marks. */
  lemma {:induction false} CountsAt(h: seq<MoveRecord>, k: nat)
    requires Chain(h) && k < |h|
    ensures Count(h[k].squares, Empty) == 9 - k
    ensures Count(h[k].squares, Mark(X)) == (k + 1) / 2
    ensures Count(h[k].squares, Mark(O)) == k / 2
  {
    if k == 0 {
      ChainBoards(h, 0);
      EmptyBoardCounts();
    } else {
      CountsAt(h, k - 1);
      var i := PlayedSquare(h, k);
      MoveCounts(h[k - 1].squares, i, PlayerForStep(k - 1));
      HalfSteps(k);
    }
  }

  /** The counts hold at every step, so a legal history never holds more than ten records. */
  lemma ChainCounts(h: seq<MoveRecord>)
    requires Chain(h)
    ensures |h| <= 10
    ensures forall k :: 0 <= k < |h| ==>
              Count(h[k].squares, Empty) == 9 - k &&
              Count(h[k].squares, Mark(X)) == (k + 1) / 2 &&
              Count(h[k].squares, Mark(O)) == k / 2
  {
    forall k | 0 <= k < |h|
      ensures Count(h[k].squares, Empty) == 9 - k &&
              Count(h[k].squares, Mark(X)) == (k + 1) / 2 &&
              Count(h[k].squares, Mark(O)) == k / 2
    {
      CountsAt(h, k);
    }
    CountsAt(h, |h| - 1);
  }

  /** A history truncated at a legal step and extended by one accepted move is legal. */
  lemma ExtendChain(h: seq<MoveRecord>, step: nat, rec: MoveRecord)
    requires Chain(h) && step < |h| && Follows(h[step], rec, step)
    ensures Chain(h[..step + 1] + [rec])
  {
    ChainPrefix(h, step + 1);
    var h' := h[..step + 1] + [rec];
    assert h'[..step + 1] == h[..step + 1];
  }

  /** handleClick keeps the invariant. */
  lemma ClickPreservesGood(s: GameState, i: int)
    requires Good(s) && 0 <= i < 9
    ensures Good(Click(s, i))
  {
    if Blocked(s, i) {
      BlockedClick(s, i);
    } else {
      AcceptedClickKeepsGood(s, i);
    }
  }

  lemma AcceptedClickKeepsGood(s: GameState, i: int)
    requires Good(s) && 0 <= i < 9 && !Blocked(s, i)
    ensures Good(Click(s, i))
  {
    AcceptedClickValue(s, i);
    AcceptedRecordFollows(s, i);
    ExtendChain(s.history, s.stepNumber, AcceptedRecord(s, i));
    ParityFlips(s.stepNumber);
  }

  /** An accepted click, written out. */
  lemma AcceptedClickValue(s: GameState, i: int)
    requires Displayable(s) && 0 <= i < 9 && !Blocked(s, i)
    ensures Click(s, i) ==
            GameState(s.history[..s.stepNumber + 1] + [AcceptedRecord(s, i)], s.stepNumber + 1, !s.xIsNext)
  {
  }

  /** An accepted click, in the terms the handler builds it: the kept front of the history and
      the record with the marked board and the coordinates (i / 3 + 1, i % 3 + 1). */
  lemma AcceptedClickBuilt(s: GameState, i: int, front: seq<MoveRecord>, record: MoveRecord)
    requires Good(s) && 0 <= i < 9 && !Blocked(s, i)
    requires front == s.history[..s.stepNumber + 1]
    requires record == MoveRecord(CurrentBoard(s)[i := Mark(MarkFor(s.xIsNext))], At(i / 3 + 1, i % 3 + 1))
    ensures Click(s, i) == GameState(front + [record], |front|, !s.xIsNext)
    ensures Good(Click(s, i))
  {
    assert record == AcceptedRecord(s, i);
    AcceptedClickValue(s, i);
    AcceptedClickKeepsGood(s, i);
  }

  lemma ParityFlips(n: int)
    ensures (n + 1) % 2 == 0 <==> n % 2 != 0
  {
  }

  /** A blocked click returns the state it was given. */
  lemma BlockedClick(s: GameState, i: int)
    requires Displayable(s) && 0 <= i < 9 && Blocked(s, i)
    ensures Click(s, i) == s
  {
    assert s.history[..s.stepNumber + 1][s.stepNumber] == s.history[s.stepNumber];
  }

  /** The appended record is one legal move from the displayed board. */
  lemma AcceptedRecordFollows(s: GameState, i: int)
    requires Displayable(s) && 0 <= i < 9 && !Blocked(s, i)
    requires s.xIsNext == (s.stepNumber % 2 == 0)
    ensures Follows(s.history[s.stepNumber], AcceptedRecord(s, i), s.stepNumber)
    ensures |AcceptedRecord(s, i).squares| == 9
  {
    CoordinatesRoundTrip(i);
  }

  /** jumpTo keeps the invariant, for any step the move list offers. */
  lemma JumpPreservesGood(s: GameState, step: int)
    requires Good(s) && 0 <= step < |s.history|
    ensures Good(Jump(s, step))
  {
    ChainBoards(s.history, step);
  }

  // ---------------------------------------------------------------------------------------
  // The transitions

  /** A click is ignored exactly when it is blocked: every other click changes the state. */
  lemma ClickNoOpIffBlocked(s: GameState, i: int)
    requires Good(s) && 0 <= i < 9
    ensures Click(s, i) == s <==> Blocked(s, i)
  {
    assert s.history[..s.stepNumber + 1][s.stepNumber] == s.history[s.stepNumber];
  }

  /** An accepted click drops the records after the current step, appends one record, moves to
      it and hands the turn over; the new board differs from the old one in square `i` only,
      which now holds the mover's mark, and the record's coordinates name square `i`. */
  lemma ClickEffect(s: GameState, i: int)
    requires Good(s) && 0 <= i < 9 && !Blocked(s, i)
    ensures var t := Click(s, i);
            t.history[..|t.history| - 1] == s.history[..s.stepNumber + 1] &&
            t.stepNumber == |t.history| - 1 == s.stepNumber + 1 &&
            t.xIsNext == !s.xIsNext
    ensures var t := Click(s, i);
            var rec := t.history[t.stepNumber];
            rec.squares[i] == Mark(PlayerForStep(s.stepNumber)) &&
            CurrentBoard(s)[i] == Empty &&
            (forall j :: 0 <= j < 9 && j != i ==> rec.squares[j] == CurrentBoard(s)[j]) &&
            rec.moveCoordinates.At? &&
            1 <= rec.moveCoordinates.row <= 3 && 1 <= rec.moveCoordinates.column <= 3 &&
            CellAt(rec.moveCoordinates.row, rec.moveCoordinates.column) == i
  {
    assert s.history[..s.stepNumber + 1][s.stepNumber] == s.history[s.stepNumber];
    var t := Click(s, i);
    assert t.history[..|t.history| - 1] == s.history[..s.stepNumber + 1];
    CoordinatesRoundTrip(i);
  }

  /** jumpTo moves the step, recomputes the turn from its parity, leaves history alone, and the
      board shown afterwards is the one recorded at that step. */
  lemma JumpEffect(s: GameState, step: int)
    requires Good(s) && 0 <= step < |s.history|
    ensures var t := Jump(s, step);
            t.history == s.history && t.stepNumber == step &&
            CurrentBoard(t) == s.history[step].squares &&
            MarkFor(t.xIsNext) == PlayerForStep(step)
  {
  }

  /** Jumping back to the start always shows the empty board with X to move. */
  lemma JumpToStartRestores(s: GameState)
    requires Good(s)
    ensures CurrentBoard(Jump(s, 0)) == EmptyBoard() && StatusOf(Jump(s, 0)) == Next(X)
  {
    ChainBoards(s.history, 0);
    NoWinnerOnEmptyBoard();
  }

  /** A move made after jumping back to step k keeps records 0..k, discards the later ones and
      continues play from the board recorded at step k. */
  lemma JumpThenClickBranches(s: GameState, k: int, i: int)
    requires Good(s) && 0 <= k < |s.history| && 0 <= i < 9
    ensures Good(Jump(s, k))
    ensures !Blocked(Jump(s, k), i) ==>
            var t := Click(Jump(s, k), i);
            |t.history| == k + 2 && t.history[..k + 1] == s.history[..k + 1] &&
            t.stepNumber == k + 1 &&
            t.history[k + 1].squares == s.history[k].squares[i := Mark(PlayerForStep(k))]
  {
    JumpPreservesGood(s, k);
    assert s.history[..k + 1][k] == s.history[k];
  }

  // ---------------------------------------------------------------------------------------
  // What render derives

  /** The winner shown is always the player who made the last move: the move before it left
      no winner, so every winning line passes through the square just played. */
  lemma WinnerIsLastMover(s: GameState)
    requires Good(s) && CalculateWinner(CurrentBoard(s)).Some?
    ensures s.stepNumber > 0
    ensures CalculateWinner(CurrentBoard(s)).value.winner == PlayerForStep(s.stepNumber - 1)
  {
    var h, n := s.history, s.stepNumber;
    if n == 0 {
      ChainBoards(h, 0);
      NoWinnerOnEmptyBoard();
      assert false;
    }
    var prev, next := h[n - 1], h[n];
    ChainStep(h, n);
    var i := CellAt(next.moveCoordinates.row, next.moveCoordinates.column);
    var w := CalculateWinner(next.squares).value;
    var l := w.line;
    var k :| 0 <= k < |Lines| && Lines[k] == l;
    assert !Qualifies(prev.squares, Lines[k]);
    LineThroughMove(prev.squares, i, Mark(PlayerForStep(n - 1)), l);
  }

  /** A line that is complete after a move, and was not before, passes through the square played. */
  lemma LineThroughMove(prev: Board, i: nat, m: Cell, l: Line)
    requires i < |prev| && !Qualifies(prev, l) && Qualifies(prev[i := m], l)
    ensures l.a == i || l.b == i || l.c == i
  {
  }

  /** The status in a reachable state means what it says: a winner exactly when some line is
      complete; a draw exactly when no line is complete and no square is empty; otherwise the
      next player, who is X exactly when both players have placed as many marks. */
  lemma StatusMeaning(s: GameState)
    requires Good(s)
    ensures var b, st := CurrentBoard(s), StatusOf(s);
            (st.Winner? <==> exists k :: 0 <= k < |Lines| && Qualifies(b, Lines[k])) &&
            (st.Draw? <==> (forall k :: 0 <= k < |Lines| ==> !Qualifies(b, Lines[k])) && Full(b)) &&
            (st.Next? <==> (forall k :: 0 <= k < |Lines| ==> !Qualifies(b, Lines[k])) && !Full(b))
    ensures var b, st := CurrentBoard(s), StatusOf(s);
            st.Next? ==> (st.sym == X <==> Count(b, Mark(X)) == Count(b, Mark(O)))
  {
    var b := CurrentBoard(s);
    ChainCounts(s.history);
    FullIffNoEmpty(b);
  }

  // ---------------------------------------------------------------------------------------
  // Whole games

  predicate ValidMoves(moves: seq<int>)
  {
    forall k :: 0 <= k < |moves| ==> 0 <= moves[k] < 9
  }

  /** The state after clicking the squares of `moves` in turn, starting from a new game. */
  function Play(moves: seq<int>): (s: GameState)
    requires ValidMoves(moves)
    ensures Good(s)
    decreases |moves|
  {
    if moves == [] then InitialIsGood(); Initial()
    else
      var prev := Play(moves[..|moves| - 1]);
      var i := moves[|moves| - 1];
      ClickPreservesGood(prev, i);
      Click(prev, i)
  }

  /** Every click of `moves` was accepted when it was made: the last one, on the state the
      earlier ones reached, and each of the earlier ones. */
  predicate AllAccepted(moves: seq<int>)
    requires ValidMoves(moves)
    decreases |moves|
  {
    |moves| == 0 ||
    var front := moves[..|moves| - 1];
    AllAccepted(front) && !Blocked(Play(front), moves[|moves| - 1])
  }

  /** An accepted click made at the end of the history appends one record and steps onto it. */
  lemma ClickAtEndGrows(s: GameState, i: int)
    requires Good(s) && 0 <= i < 9 && !Blocked(s, i)
    requires s.stepNumber == |s.history| - 1
    ensures |Click(s, i).history| == |s.history| + 1
    ensures Click(s, i).stepNumber == s.stepNumber + 1
  {
    assert s.history[..s.stepNumber + 1] == s.history;
  }

  /** After N accepted moves the history holds N + 1 records and the step is N; so no game
      accepts more than nine moves. */
  lemma {:induction false} PlayCounts(moves: seq<int>)
    requires ValidMoves(moves) && AllAccepted(moves)
    ensures |Play(moves).history| == |moves| + 1 && Play(moves).stepNumber == |moves|
    ensures |moves| <= 9
  {
    if moves != [] {
      var front := moves[..|moves| - 1];
      PlayCounts(front);
      ClickAtEndGrows(Play(front), moves[|moves| - 1]);
    }
    ChainCounts(Play(moves).history);
  }
}
