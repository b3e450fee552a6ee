/**
 The 3x3 playing field of the game: two players, cells that are empty or
 carry one player's mark, and a board of exactly nine cells indexed 0..8
 row by row (row = index / 3, column = index % 3).
 */
module Board {

  /** The two players. X always moves first. */
  datatype Player = X | O {
    /** The opponent of this player. */
    function Other(): Player {
      if this == X then O else X
    }
  }

  /** A cell of the `squares` array in App.js is `null` (empty) or holds
      the string "X" or "O"; here it is an explicit sum. */
  datatype Cell = Empty | Filled(player: Player)

  /** A board has exactly nine cells. */
  type Board = s: seq<Cell> | |s| == 9
    witness [Empty, Empty, Empty, Empty, Empty, Empty, Empty, Empty, Empty]

  /** The freshly allocated board `Array(9).fill(null)`. */
  const EmptyBoard: Board := [Empty, Empty, Empty, Empty, Empty, Empty, Empty, Empty, Empty]

  /** `squares.every(Boolean)`: every cell of `s` is filled. Written as the
      left-to-right scan `every` performs. */
  function EveryFilled(s: seq<Cell>): (r: bool)
    ensures r <==> forall i :: 0 <= i < |s| ==> s[i].Filled?
    ensures r <==> Count(s, Empty) == 0
  {
    s == [] || (s[0].Filled? && EveryFilled(s[1..]))
  }

  /** Number of cells of `s` equal to `c`. */
  function Count(s: seq<Cell>, c: Cell): (n: nat)
    ensures n <= |s|
    ensures n == 0 <==> forall i :: 0 <= i < |s| ==> s[i] != c
  {
    if s == [] then 0
    else (if s[0] == c then 1 else 0) + Count(s[1..], c)
  }

  /** Writing `v` into position `i` changes the count of `c` by the cell
      that left and the cell that arrived, and by nothing else. */
  lemma {:induction false} CountUpdate(s: seq<Cell>, i: int, v: Cell, c: Cell)
    requires 0 <= i < |s|
    ensures Count(s[i := v], c)
            == Count(s, c) - (if s[i] == c then 1 else 0) + (if v == c then 1 else 0)
  {
    if i == 0 {
      assert s[i := v][1..] == s[1..];
    } else {
      assert s[i := v][1..] == s[1..][i - 1 := v];
      CountUpdate(s[1..], i - 1, v, c);
    }
  }
}
