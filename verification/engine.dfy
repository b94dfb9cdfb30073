/**
 The pure game engine of app/index.tsx: the winner scan over the eight lines, the
 draw test, and the facts about placing one mark that the controller relies on.
 */
module Engine {
  import opened Wrappers
  import opened GameTypes

  /** The eight winning lines in scan order: three rows, three columns, two diagonals. */
  const Lines: seq<(Index, Index, Index)> := [
    (0, 1, 2), (3, 4, 5), (6, 7, 8),
    (0, 3, 6), (1, 4, 7), (2, 5, 8),
    (0, 4, 8), (2, 4, 6)
  ]

  /** All three cells of line `k` hold `p`'s mark. */
  predicate LineWonBy(b: Board, k: nat, p: Symbol)
    requires k < |Lines|
  {
    b[Lines[k].0] == Mark(p) && b[Lines[k].1] == Mark(p) && b[Lines[k].2] == Mark(p)
  }

  /** Line `k` is filled by one player. */
  predicate LineComplete(b: Board, k: nat)
    requires k < |Lines|
  {
    LineWonBy(b, k, X) || LineWonBy(b, k, O)
  }

  /** Some row, column or diagonal is all `p`. */
  predicate HasLine(b: Board, p: Symbol) {
    exists k :: 0 <= k < |Lines| && LineWonBy(b, k, p)
  }

  /** Some player has a complete line. */
  predicate Decided(b: Board) {
    HasLine(b, X) || HasLine(b, O)
  }

  /** The scan of `checkWinner` from line `k` on. */
  function FirstWinner(b: Board, k: nat): Option<Symbol>
    requires k <= |Lines|
    decreases |Lines| - k
  {
    if k == |Lines| then None
    else
      var (i, j, l) := Lines[k];
      if b[i] != Empty && b[i] == b[j] && b[i] == b[l] then Some(b[i].symbol)
      else FirstWinner(b, k + 1)
  }

  /**
   The scan from line `k` finds nothing exactly when every remaining line is open, and
   otherwise returns the owner of the first complete line at or after `k`.
   */
  lemma {:induction false} FirstWinnerSpec(b: Board, k: nat)
    requires k <= |Lines|
    ensures FirstWinner(b, k).None? <==> forall m :: k <= m < |Lines| ==> !LineComplete(b, m)
    ensures FirstWinner(b, k).Some? ==>
      exists m :: k <= m < |Lines| && LineWonBy(b, m, FirstWinner(b, k).value) &&
        forall j :: k <= j < m ==> !LineComplete(b, j)
    decreases |Lines| - k
  {
    if k < |Lines| {
      LineTest(b, k);
      var (i, j, l) := Lines[k];
      if b[i] != Empty && b[i] == b[j] && b[i] == b[l] {
        assert LineWonBy(b, k, FirstWinner(b, k).value);
      } else {
        FirstWinnerSpec(b, k + 1);
        if FirstWinner(b, k).Some? {
          var m :| k + 1 <= m < |Lines| && LineWonBy(b, m, FirstWinner(b, k).value) &&
            forall n :: k + 1 <= n < m ==> !LineComplete(b, n);
          assert forall n :: k <= n < m ==> !LineComplete(b, n);
        }
      }
    }
  }

  /** The test `b[a] && b[a] === b[b] && b[a] === b[c]` on line `k` decides its completeness. */
  lemma LineTest(b: Board, k: nat)
    requires k < |Lines|
    ensures var (i, j, l) := Lines[k];
      if b[i] != Empty && b[i] == b[j] && b[i] == b[l]
      then LineComplete(b, k) && LineWonBy(b, k, b[i].symbol) && FirstWinner(b, k) == Some(b[i].symbol)
      else !LineComplete(b, k) && FirstWinner(b, k) == FirstWinner(b, k + 1)
  {
    var (i, j, l) := Lines[k];
    if b[i] != Empty && b[i] == b[j] && b[i] == b[l] {
      if b[i].symbol == X { assert LineWonBy(b, k, X); } else { assert LineWonBy(b, k, O); }
    }
  }

  /** `checkWinner`: scan the eight lines in order. */
  function CheckWinner(b: Board): Option<Symbol> {
    FirstWinner(b, 0)
  }

  /**
   `checkWinner` returns None exactly when no line is complete; otherwise it returns the
   owner of the first complete line in the order rows, columns, diagonals, so a player
   who is the only one with a line is always the one returned.
   */
  lemma CheckWinnerSpec(b: Board)
    ensures CheckWinner(b).None? <==> !Decided(b)
    ensures CheckWinner(b).Some? ==> HasLine(b, CheckWinner(b).value)
    ensures CheckWinner(b).Some? ==>
      exists m :: 0 <= m < |Lines| && LineWonBy(b, m, CheckWinner(b).value) &&
        forall j :: 0 <= j < m ==> !LineComplete(b, j)
    ensures forall p :: HasLine(b, p) && !HasLine(b, p.Other()) ==> CheckWinner(b) == Some(p)
  {
    FirstWinnerSpec(b, 0);
  }

  /** The number of non-empty cells. */
  function CountFilled(cells: seq<Cell>): nat {
    if |cells| == 0 then 0
    else (if cells[0] != Empty then 1 else 0) + CountFilled(cells[1..])
  }

  /** The count is at most the length; it is full exactly when no cell is empty. */
  lemma {:induction false} CountFilledSpec(cells: seq<Cell>)
    ensures CountFilled(cells) <= |cells|
    ensures CountFilled(cells) == |cells| <==> forall i :: 0 <= i < |cells| ==> cells[i] != Empty
    ensures CountFilled(cells) == 0 <==> forall i :: 0 <= i < |cells| ==> cells[i] == Empty
  {
    if |cells| > 0 {
      CountFilledSpec(cells[1..]);
      assert forall i :: 1 <= i < |cells| ==> cells[i] == cells[1..][i - 1];
    }
  }

  /** The draw test `!winner && board.every(cell => cell !== '')`. */
  function IsDraw(b: Board): bool {
    CheckWinner(b).None? && forall i :: 0 <= i < 9 ==> b[i] != Empty
  }

  /** A draw is a board with no complete line whose nine cells are all filled. */
  lemma IsDrawSpec(b: Board)
    ensures IsDraw(b) <==> !Decided(b) && CountFilled(b) == 9
  {
    CheckWinnerSpec(b);
    CountFilledSpec(b);
  }

  /** The board of a fresh round has no mark and no complete line. */
  lemma EmptyBoardIsOpen()
    ensures CountFilled(EmptyBoard) == 0
    ensures !Decided(EmptyBoard)
  {
    assert forall i :: 0 <= i < |EmptyBoard| ==> EmptyBoard[i] == Empty;
  }

  /** Filling one empty cell adds exactly one to the count of filled cells. */
  lemma {:induction false} FillOneCell(cells: seq<Cell>, i: nat, c: Cell)
    requires i < |cells| && cells[i] == Empty && c != Empty
    ensures CountFilled(cells[i := c]) == CountFilled(cells) + 1
    decreases i
  {
    if i == 0 {
      assert cells[i := c][1..] == cells[1..];
    } else {
      assert cells[i := c][1..] == cells[1..][i - 1 := c];
      FillOneCell(cells[1..], i - 1, c);
    }
  }

  /** Placing `p`'s mark never completes a line for `p`'s opponent. */
  lemma MarkNeverHelpsOpponent(b: Board, i: Index, p: Symbol)
    requires !HasLine(b, p.Other())
    ensures !HasLine(b[i := Mark(p)], p.Other())
  {
    var b' := b[i := Mark(p)];
    if HasLine(b', p.Other()) {
      var k :| 0 <= k < |Lines| && LineWonBy(b', k, p.Other());
      assert LineWonBy(b, k, p.Other());
    }
  }
}
