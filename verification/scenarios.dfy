/**
 Concrete positions and one whole game, with their outcomes proved from the general model.
 */
module Scenarios {
  import opened Board
  import opened Outcome
  import opened Game
  import opened Play

  /** The empty board has no winner and is not a draw. */
  lemma EmptyBoardIsOpen()
    ensures CalculateWinner(EmptyBoard) == None
    ensures !IsDraw(EmptyBoard)
    ensures StatusOf(Initial) == Turn(X)
  {
    assert EmptyBoard[0] == Empty;
  }

  /** X holding the top row wins with the line [0, 1, 2]. */
  lemma TopRowWins()
    ensures var b: Board := [Filled(X), Filled(X), Filled(X), Filled(O), Filled(O),
                             Empty, Empty, Empty, Empty];
            CalculateWinner(b) == Some(X) && CalculateWinnerLine(b) == Some(Line(0, 1, 2))
  {
  }

  /** A full board without any line is a draw. */
  lemma FullBoardDraw()
    ensures var b: Board := [Filled(X), Filled(O), Filled(X), Filled(O), Filled(X),
                             Filled(O), Filled(O), Filled(X), Filled(O)];
            CalculateWinner(b) == None && IsDraw(b)
  {
    var b: Board := [Filled(X), Filled(O), Filled(X), Filled(O), Filled(X),
                     Filled(O), Filled(O), Filled(X), Filled(O)];
    assert EveryFilled(b);
    assert forall j :: 0 <= j < |Lines| ==> !Complete(b, Lines[j]);
  }

  /** A click on an empty cell of a board where no line is complete is
      accepted: it writes the mover's mark and passes the turn. */
  lemma OpenClick(s: State, i: Index)
    requires s.squares[i] == Empty
    requires forall j :: 0 <= j < |Lines| ==> !Complete(s.squares, Lines[j])
    ensures Click(s, i) == State(s.squares[i := Filled(s.Mover())], !s.xIsNext)
  {
    NoCompleteLine(s.squares);
  }

  /** If each click leads from one listed position to the next, running
      all the clicks leads from the first position to the last. */
  lemma {:induction false} RunThrough(positions: seq<State>, clicks: seq<Index>)
    requires |positions| == |clicks| + 1
    requires forall k :: 0 <= k < |clicks| ==> Click(positions[k], clicks[k]) == positions[k + 1]
    decreases |clicks|
    ensures Run(positions[0], clicks) == positions[|clicks|]
  {
    if clicks != [] {
      RunThrough(positions[1..], clicks[1..]);
    }
  }

  /** X at 0, O at 1, X at 4, O at 2, X at 8. */
  const DiagonalClicks: seq<Index> := [0, 1, 4, 2, 8]

  /** The position reached after X completes the main diagonal. */
  const DiagonalEnd: State :=
    State([Filled(X), Filled(O), Filled(O), Empty, Filled(X), Empty, Empty, Empty, Filled(X)], false)

  /** The positions before and after each move of `DiagonalClicks`. */
  const DiagonalPositions: seq<State> := [
    Initial,
    State([Filled(X), Empty, Empty, Empty, Empty, Empty, Empty, Empty, Empty], false),
    State([Filled(X), Filled(O), Empty, Empty, Empty, Empty, Empty, Empty, Empty], true),
    State([Filled(X), Filled(O), Empty, Empty, Filled(X), Empty, Empty, Empty, Empty], false),
    State([Filled(X), Filled(O), Filled(O), Empty, Filled(X), Empty, Empty, Empty, Empty], true),
    DiagonalEnd
  ]

  /** Move `k` of the diagonal game is accepted and leads to the next
      listed position. */
  lemma DiagonalMove(k: nat)
    requires k < |DiagonalClicks|
    ensures Click(DiagonalPositions[k], DiagonalClicks[k]) == DiagonalPositions[k + 1]
  {
    OpenClick(DiagonalPositions[k], DiagonalClicks[k]);
  }

  /** Playing X at 0, O at 1, X at 4, O at 2, X at 8 from the start
      reaches `DiagonalEnd`. */
  lemma DiagonalGameRun()
    ensures Run(Initial, DiagonalClicks) == DiagonalEnd
  {
    forall k | 0 <= k < |DiagonalClicks|
      ensures Click(DiagonalPositions[k], DiagonalClicks[k]) == DiagonalPositions[k + 1]
    {
      DiagonalMove(k);
    }
    RunThrough(DiagonalPositions, DiagonalClicks);
  }

  /** In `DiagonalEnd` X wins on the main diagonal, the status says so, and
      a further click on cell 0 changes nothing. */
  lemma DiagonalGameOutcome()
    ensures CalculateWinner(DiagonalEnd.squares) == Some(X)
    ensures CalculateWinnerLine(DiagonalEnd.squares) == Some(Line(0, 4, 8))
    ensures StatusOf(DiagonalEnd) == Won(X)
    ensures Click(DiagonalEnd, 0) == DiagonalEnd
  {
    var b := DiagonalEnd.squares;
    assert OwnedBy(b, Lines[6], X);
    assert forall m :: 0 <= m < 6 ==> !Complete(b, Lines[m]);
    WinnerLineAgrees(b);
  }
}
