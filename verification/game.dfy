/**
 The turn state machine of the game component: the board together with
 whose turn it is, the click and restart transitions, and the status line
 derived from the current state.
 */
module Game {
  import opened Board
  import opened Outcome

  /** The component state: the `squares` array and the `xIsNext` flag. */
  datatype State = State(squares: Board, xIsNext: bool) {
    /** The player whose mark the next accepted click writes. */
    function Mover(): Player {
      if xIsNext then X else O
    }
  }

  /** The state a game starts in: an empty board with X to move. */
  const Initial: State := State(EmptyBoard, true)

  /** True when a click on cell `i` is ignored: the cell is already taken
      or some player already owns a line. */
  predicate Rejects(s: State, i: int)
    requires 0 <= i < 9
  {
    s.squares[i].Filled? || CalculateWinner(s.squares).Some?
  }

  /** `handleClick(index)`. A click on a filled cell, or once there is a
      winner, changes nothing. Otherwise the mover's mark goes into cell
      `i`, every other cell is kept, and the turn passes to the opponent.
      `handleClick` does not check the index; a caller must pass a cell of
      the board. */
  function Click(s: State, i: int): (r: State)
    requires 0 <= i < 9
    ensures s.squares[i].Filled? || HasLine(s.squares, X) || HasLine(s.squares, O) ==> r == s
    ensures s.squares[i] == Empty && !HasLine(s.squares, X) && !HasLine(s.squares, O) ==>
              && r.squares[i] == Filled(if s.xIsNext then X else O)
              && (forall j :: 0 <= j < 9 && j != i ==> r.squares[j] == s.squares[j])
              && r.xIsNext == !s.xIsNext
  {
    if Rejects(s, i) then s
    else State(s.squares[i := Filled(s.Mover())], !s.xIsNext)
  }

  /** `handleRestart()`: whatever the state before, the board is emptied
      and X is to move. */
  function Restart(s: State): (r: State)
    ensures forall i :: 0 <= i < 9 ==> r.squares[i] == Empty
    ensures r.xIsNext
  {
    Initial
  }

  /** What the status line shows. */
  datatype Status = Won(winner: Player) | Draw | Turn(player: Player)

  /** The status selection: a win takes priority over a draw, and a draw
      over showing whose turn it is. */
  function StatusOf(s: State): (st: Status)
    ensures st.Won? <==> HasLine(s.squares, X) || HasLine(s.squares, O)
    ensures st.Won? ==> HasLine(s.squares, st.winner)
    ensures st == Draw <==>
              && !HasLine(s.squares, X) && !HasLine(s.squares, O)
              && forall i :: 0 <= i < 9 ==> s.squares[i] != Empty
    ensures st.Turn? <==>
              && !HasLine(s.squares, X) && !HasLine(s.squares, O)
              && exists i :: 0 <= i < 9 && s.squares[i] == Empty
    ensures st.Turn? ==> (st.player == X <==> s.xIsNext)
  {
    if CalculateWinner(s.squares).Some? then Won(CalculateWinner(s.squares).value)
    else if IsDraw(s.squares) then Draw
    else Turn(s.Mover())
  }

  /** A draw board is full, so a click after a draw is ignored even though
      the click handler only tests for a winner and a filled cell. */
  lemma ClickAfterDrawIsNoOp(s: State, i: int)
    requires 0 <= i < 9
    requires IsDraw(s.squares)
    ensures Click(s, i) == s
  {
    DrawCharacterisation(s.squares);
  }
}
