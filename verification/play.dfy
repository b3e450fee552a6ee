/**
 Whole games: a sequence of clicks applied in order, and the invariants
 every state reachable from the initial one keeps.
 */
module Play {
  import opened Board
  import opened Outcome
  import opened Game

  /** The state after handling `clicks` in order, starting from `s`. A
      filled cell is never overwritten along the way. */
  function Run(s: State, clicks: seq<Index>): (r: State)
    decreases |clicks|
    ensures forall j :: 0 <= j < 9 && s.squares[j].Filled? ==> r.squares[j] == s.squares[j]
  {
    if clicks == [] then s
    else Run(Click(s, clicks[0]), clicks[1..])
  }

  /** X moves first and the players alternate: X has as many marks as O
      or one more, and it is X's turn exactly when the counts are equal. */
  predicate Balanced(s: State) {
    var x := Count(s.squares, Filled(X));
    var o := Count(s.squares, Filled(O));
    (x == o || x == o + 1) && (s.xIsNext <==> x == o)
  }

  /** At most one player owns a complete line. */
  predicate SingleOwner(b: Board) {
    !(HasLine(b, X) && HasLine(b, O))
  }

  /** The invariant of every reachable state. */
  predicate Valid(s: State) {
    Balanced(s) && SingleOwner(s.squares)
  }

  /** The initial state satisfies the invariant. */
  lemma InitialValid()
    ensures Valid(Initial)
    ensures Count(Initial.squares, Filled(X)) == 0 && Count(Initial.squares, Filled(O)) == 0
  {
    assert forall i :: 0 <= i < 9 ==> Initial.squares[i] == Empty;
    assert !HasLine(Initial.squares, X) && !HasLine(Initial.squares, O) by {
      NoCompleteLine(Initial.squares);
    }
  }

  /** A line that `q` owns after `p` wrote into cell `i`, with `q` not `p`,
      was already owned by `q` before. */
  lemma OwnedBeforeWrite(b: Board, i: Index, p: Player, q: Player, l: Line)
    requires q != p
    requires OwnedBy(b[i := Filled(p)], l, q)
    ensures OwnedBy(b, l, q)
  {
    assert !l.Contains(i);
  }

  /** Accepting a click keeps the invariant: the counts move in step with
      the turn flag, and only the mover can complete a new line. */
  lemma ClickPreservesValid(s: State, i: Index)
    requires Valid(s)
    ensures Valid(Click(s, i))
  {
    if !Rejects(s, i) {
      var p := s.Mover();
      var b := s.squares;
      var b' := b[i := Filled(p)];
      CountUpdate(b, i, Filled(p), Filled(X));
      CountUpdate(b, i, Filled(p), Filled(O));
      assert !HasLine(b, X) && !HasLine(b, O);
      if HasLine(b', p.Other()) {
        var k :| 0 <= k < |Lines| && OwnedBy(b', Lines[k], p.Other());
        OwnedBeforeWrite(b, i, p, p.Other(), Lines[k]);
        assert false;
      }
    }
  }

  /** The invariant holds after any sequence of clicks. */
  lemma {:induction false} RunPreservesValid(s: State, clicks: seq<Index>)
    requires Valid(s)
    decreases |clicks|
    ensures Valid(Run(s, clicks))
  {
    if clicks != [] {
      ClickPreservesValid(s, clicks[0]);
      RunPreservesValid(Click(s, clicks[0]), clicks[1..]);
    }
  }

  /** Every state reachable from the start of a game: X has as many marks
      as O or one more, X is to move exactly when the counts are equal,
      and at most one player owns a line. */
  lemma ReachableValid(clicks: seq<Index>)
    ensures Valid(Run(Initial, clicks))
  {
    InitialValid();
    RunPreservesValid(Initial, clicks);
  }

  /** In a reachable state the player who owns a line is the reported
      winner, and the reported line belongs to that player, whatever the
      scan order. */
  lemma ReachableWinnerIsOwner(clicks: seq<Index>, p: Player)
    requires HasLine(Run(Initial, clicks).squares, p)
    ensures CalculateWinner(Run(Initial, clicks).squares) == Some(p)
    ensures CalculateWinnerLine(Run(Initial, clicks).squares).Some?
    ensures OwnedBy(Run(Initial, clicks).squares, CalculateWinnerLine(Run(Initial, clicks).squares).value, p)
  {
    var b := Run(Initial, clicks).squares;
    ReachableValid(clicks);
    assert !HasLine(b, p.Other());
    WinnerIsSoleOwner(b, p);
    WinnerLineAgrees(b);
  }

  /** Once a player owns a line, further clicks change nothing. */
  lemma {:induction false} WonGameIsFinal(s: State, clicks: seq<Index>)
    requires HasLine(s.squares, X) || HasLine(s.squares, O)
    decreases |clicks|
    ensures Run(s, clicks) == s
  {
    if clicks != [] {
      WonGameIsFinal(Click(s, clicks[0]), clicks[1..]);
    }
  }

  /** Once the game is drawn, further clicks change nothing. */
  lemma {:induction false} DrawnGameIsFinal(s: State, clicks: seq<Index>)
    requires IsDraw(s.squares)
    decreases |clicks|
    ensures Run(s, clicks) == s
  {
    if clicks != [] {
      ClickAfterDrawIsNoOp(s, clicks[0]);
      DrawnGameIsFinal(Click(s, clicks[0]), clicks[1..]);
    }
  }

  /** Restarting from any reachable state gives back the start of a game,
      which is valid again. */
  lemma RestartIsValid(s: State)
    ensures Valid(Restart(s))
    ensures Restart(s) == Run(Initial, [])
  {
    InitialValid();
  }
}
