/** Cell values of the 3x3 board and counting over boards.
    A board is a sequence of nine cells in row-major order (index = 3 * row + column). */
module Cells {

  /** The two symbols a player can place ('X' and 'O'). */
  datatype Player = X | O

  /** One square: empty (the source's null) or holding a player's mark. */
  datatype Cell = Empty | Mark(player: Player)

  type Board = seq<Cell>

  /** The board the game starts from: nine empty squares (Array(9).fill(null)). */
  function EmptyBoard(): (b: Board)
    ensures |b| == 9 && forall i :: 0 <= i < 9 ==> b[i] == Empty
  {
    [Empty, Empty, Empty, Empty, Empty, Empty, Empty, Empty, Empty]
  }

  /** The mark of the player the flag designates ('X' when xIsNext, else 'O'). */
  function MarkFor(xIsNext: bool): Player
  {
    if xIsNext then X else O
  }

  /** Number of squares of `b` that hold `c`. */
  function Count(b: Board, c: Cell): (n: nat)
    ensures n <= |b|
  {
    if b == [] then 0 else (if b[0] == c then 1 else 0) + Count(b[1..], c)
  }

  /** A board on which no square is empty. */
  predicate Full(b: Board)
  {
    forall i :: 0 <= i < |b| ==> b[i] != Empty
  }

  /** Writing `v` into square `i` removes one occurrence of the old value and adds one of `v`. */
  lemma {:induction false} CountUpdate(b: Board, i: nat, v: Cell, c: Cell)
    requires i < |b|
    ensures Count(b[i := v], c)
            == Count(b, c) - (if b[i] == c then 1 else 0) + (if v == c then 1 else 0)
  {
    if i == 0 {
      assert b[i := v][1..] == b[1..];
    } else {
      assert b[i := v][1..] == b[1..][i - 1 := v];
      CountUpdate(b[1..], i - 1, v, c);
    }
  }

  /** A board is full exactly when it has no empty square left to count. */
  lemma {:induction false} FullIffNoEmpty(b: Board)
    ensures Full(b) <==> Count(b, Empty) == 0
  {
    if b != [] {
      FullIffNoEmpty(b[1..]);
      if Full(b) {
        assert Full(b[1..]) by {
          forall i | 0 <= i < |b[1..]| ensures b[1..][i] != Empty {
            assert b[1..][i] == b[i + 1];
          }
        }
      }
      if Count(b, Empty) == 0 {
        forall i | 0 <= i < |b| ensures b[i] != Empty {
          if i > 0 { assert b[i] == b[1..][i - 1]; }
        }
      }
    }
  }
}
