/**
 Outcome evaluation: the winner of a board, the line that wins, and the
 draw test. Nothing here depends on whose turn it is.
 */
module Outcome {
  import opened Board

  datatype Option<T> = None | Some(value: T)

  /** A cell position on the board. */
  type Index = i: int | 0 <= i < 9

  /** A line is three cell positions; App.js represents it as the array
      `[a, b, c]`. */
  datatype Line = Line(a: Index, b: Index, c: Index) {
    /** True when position `i` is one of the three cells of the line. */
    predicate Contains(i: int) {
      i == a || i == b || i == c
    }
  }

  /** The eight winning lines in the order both scans visit them:
      rows, then columns, then the two diagonals. */
  const Lines: seq<Line> := [
    Line(0, 1, 2), Line(3, 4, 5), Line(6, 7, 8),
    Line(0, 3, 6), Line(1, 4, 7), Line(2, 5, 8),
    Line(0, 4, 8), Line(2, 4, 6)
  ]

  /** The test both scans apply to a line: the first cell is filled and
      the other two are equal to it. */
  predicate Complete(b: Board, l: Line) {
    b[l.a] != Empty && b[l.a] == b[l.b] && b[l.a] == b[l.c]
  }

  /** Reference notion, independent of scan order: all three cells of `l`
      hold `p`'s mark. */
  predicate OwnedBy(b: Board, l: Line, p: Player) {
    b[l.a] == Filled(p) && b[l.b] == Filled(p) && b[l.c] == Filled(p)
  }

  /** Reference notion: `p` owns at least one of the eight lines. */
  predicate HasLine(b: Board, p: Player) {
    exists k :: 0 <= k < |Lines| && OwnedBy(b, Lines[k], p)
  }

  /** The loop of `calculateWinner` from line number `k` on. It answers the
      owner of the first complete line at or after `k`, or `None` when no
      such line is complete. */
  function WinnerFrom(b: Board, k: nat): (w: Option<Player>)
    requires k <= |Lines|
    decreases |Lines| - k
    ensures w.None? <==> forall j :: k <= j < |Lines| ==> !Complete(b, Lines[j])
    ensures w.Some? ==>
              exists j :: k <= j < |Lines| && OwnedBy(b, Lines[j], w.value)
                          && forall m :: k <= m < j ==> !Complete(b, Lines[m])
  {
    if k == |Lines| then None
    else if Complete(b, Lines[k]) then Some(b[Lines[k].a].player)
    else WinnerFrom(b, k + 1)
  }

  /** No line passes the scan test exactly when no player owns a line. */
  lemma NoCompleteLine(b: Board)
    ensures (forall j :: 0 <= j < |Lines| ==> !Complete(b, Lines[j]))
            <==> !HasLine(b, X) && !HasLine(b, O)
  {
    if forall j :: 0 <= j < |Lines| ==> !Complete(b, Lines[j]) {
      forall k | 0 <= k < |Lines|
        ensures !OwnedBy(b, Lines[k], X) && !OwnedBy(b, Lines[k], O)
      {
        assert !Complete(b, Lines[k]);
      }
    } else {
      var j :| 0 <= j < |Lines| && Complete(b, Lines[j]);
      var l := Lines[j];
      assert b[l.a] != Empty && b[l.a] == b[l.b] && b[l.a] == b[l.c];
      var p := b[l.a].player;
      assert b[l.a] == Filled(p);
      assert OwnedBy(b, l, p);
      assert HasLine(b, p);
      if p == X { assert HasLine(b, X); } else { assert HasLine(b, O); }
    }
  }

  /** `calculateWinner`: the owner of the first complete line, or none. */
  function CalculateWinner(b: Board): (w: Option<Player>)
    ensures w.None? <==> !HasLine(b, X) && !HasLine(b, O)
    ensures w.Some? ==> HasLine(b, w.value)
  {
    NoCompleteLine(b);
    WinnerFrom(b, 0)
  }

  /** The loop of `calculateWinnerLine` from line number `k` on: the first
      complete line at or after `k`, or `None`. */
  function WinnerLineFrom(b: Board, k: nat): (r: Option<Line>)
    requires k <= |Lines|
    decreases |Lines| - k
    ensures r.None? <==> forall j :: k <= j < |Lines| ==> !Complete(b, Lines[j])
    ensures r.Some? ==>
              exists j :: k <= j < |Lines| && Lines[j] == r.value && Complete(b, Lines[j])
                          && forall m :: k <= m < j ==> !Complete(b, Lines[m])
  {
    if k == |Lines| then None
    else if Complete(b, Lines[k]) then Some(Lines[k])
    else WinnerLineFrom(b, k + 1)
  }

  /** `calculateWinnerLine`: the first complete line, or none. */
  function CalculateWinnerLine(b: Board): (r: Option<Line>)
    ensures r.Some? ==> r.value in Lines
    ensures r.Some? ==> Complete(b, r.value)
    ensures r.None? <==> !HasLine(b, X) && !HasLine(b, O)
  {
    NoCompleteLine(b);
    WinnerLineFrom(b, 0)
  }

  /** `calculateWinnerLine` is non-null exactly when `calculateWinner` is,
      and every cell of the returned line holds the winner. Both scans
      visit the same lines in the same order with the same test, so both
      stop at the first complete line. */
  lemma WinnerLineAgrees(b: Board)
    ensures CalculateWinnerLine(b).Some? <==> CalculateWinner(b).Some?
    ensures CalculateWinnerLine(b).Some? ==>
              OwnedBy(b, CalculateWinnerLine(b).value, CalculateWinner(b).value)
  {
  }

  /** The returned line is the first complete one: no line listed before
      it is complete. */
  lemma WinnerLineIsFirst(b: Board, j: nat)
    requires j < |Lines| && CalculateWinnerLine(b) == Some(Lines[j])
    ensures Complete(b, Lines[j])
    ensures forall m :: 0 <= m < j ==> !Complete(b, Lines[m])
  {
    var r := WinnerLineFrom(b, 0);
    var j' :| 0 <= j' < |Lines| && Lines[j'] == r.value && Complete(b, Lines[j'])
              && forall m :: 0 <= m < j' ==> !Complete(b, Lines[m]);
    // The eight lines are pairwise distinct, so the line fixes its position.
    assert j' == j;
  }

  /** When only one player owns a line, the scan order does not matter:
      that player is the winner. */
  lemma WinnerIsSoleOwner(b: Board, p: Player)
    requires HasLine(b, p) && !HasLine(b, p.Other())
    ensures CalculateWinner(b) == Some(p)
  {
  }

  /** The draw test `!winner && squares.every(Boolean)`. */
  predicate IsDraw(b: Board) {
    CalculateWinner(b).None? && EveryFilled(b)
  }

  /** A draw is exactly a full board on which no player owns a line; in
      particular a draw and a win never hold together. */
  lemma DrawCharacterisation(b: Board)
    ensures IsDraw(b) <==>
              (!HasLine(b, X) && !HasLine(b, O) && forall i :: 0 <= i < 9 ==> b[i] != Empty)
    ensures IsDraw(b) ==> CalculateWinner(b).None? && CalculateWinnerLine(b).None?
    ensures IsDraw(b) ==> Count(b, Empty) == 0
  {
  }
}
