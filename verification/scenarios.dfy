/** Concrete rounds and leaderboard histories, worked through the model. */
module Scenarios {
  import opened Wrappers
  import opened GameTypes
  import opened Engine
  import opened Storage
  import opened Controller

  /** A round just started by two named players. */
  function Started(): Session {
    Session(Playing, EmptyBoard, X, ZeroScore, "Ana", "Bea")
  }

  const E := Empty
  const MX := Mark(X)
  const MO := Mark(O)

  /** A playing session with board `b`, `p` to move and score `sc`. */
  function At(b: Board, p: Symbol, sc: Score): Session {
    Session(Playing, b, p, sc, "Ana", "Bea")
  }

  lemma LeftColumnStep1()
    ensures HandlePress(Started(), 0) == At([MX, E, E, E, E, E, E, E, E], O, ZeroScore)
  {
  }

  lemma LeftColumnStep2()
    ensures HandlePress(At([MX, E, E, E, E, E, E, E, E], O, ZeroScore), 1) == At([MX, MO, E, E, E, E, E, E, E], X, ZeroScore)
  {
  }

  lemma LeftColumnStep3()
    ensures HandlePress(At([MX, MO, E, E, E, E, E, E, E], X, ZeroScore), 3) == At([MX, MO, E, MX, E, E, E, E, E], O, ZeroScore)
  {
  }

  lemma LeftColumnStep4()
    ensures HandlePress(At([MX, MO, E, MX, E, E, E, E, E], O, ZeroScore), 4) == At([MX, MO, E, MX, MO, E, E, E, E], X, ZeroScore)
  {
  }

  lemma LeftColumnStep5()
    ensures HandlePress(At([MX, MO, E, MX, MO, E, E, E, E], X, ZeroScore), 6) == At([MX, MO, E, MX, MO, E, MX, E, E], X, Score(1, 0))
  {
  }

  /** X 0, O 1, X 3, O 4, X 6 fills the left column: X wins and scores once. */
  lemma LeftColumnWin()
    ensures var r := Presses(Started(), [0, 1, 3, 4, 6]);
      && CheckWinner(r.board) == Some(X)
      && r.score == Score(1, 0)
      && r.current == X
  {
    LeftColumnStep1();
    LeftColumnStep2();
    LeftColumnStep3();
    LeftColumnStep4();
    LeftColumnStep5();
    var moves: seq<Index> := [0, 1, 3, 4, 6];
    assert moves[1..][1..][1..][1..][1..] == [];
    var b: Board := [MX, MO, E, MX, MO, E, MX, E, E];
    assert LineWonBy(b, 3, X);
    assert !LineComplete(b, 0) && !LineComplete(b, 1) && !LineComplete(b, 2);
  }

  /** The full board X O X / O X O / O X O has no line and is a draw. */
  lemma FullBoardDraw()
    ensures var b: Board := [Mark(X), Mark(O), Mark(X), Mark(O), Mark(X), Mark(O), Mark(O), Mark(X), Mark(O)];
      CheckWinner(b) == None && IsDraw(b)
  {
  }

  /** When both players hold a line, the scan order decides: the top row comes first. */
  lemma ScanOrderDecides()
    ensures var b: Board := [Mark(X), Mark(X), Mark(X), Mark(O), Mark(O), Mark(O), Empty, Empty, Empty];
      CheckWinner(b) == Some(X) && HasLine(b, O)
  {
    var b: Board := [Mark(X), Mark(X), Mark(X), Mark(O), Mark(O), Mark(O), Empty, Empty, Empty];
    assert LineWonBy(b, 1, O);
  }

  /** Starting with an empty name for X is refused and nothing changes. */
  lemma StartWithoutNameIsRefused(st: Store, clearFault: bool)
    ensures var a := App(Initial.(playerO := "Bea"), st, []);
      StartNewGame(a, clearFault) == a
  {
  }

  /** A store holding only the leaderboard `rs`. */
  function Holding(rs: seq<GameResult>): Store {
    map[LeaderboardKey := ResultsJson(rs)]
  }

  lemma FirstSave(r1: GameResult)
    ensures SaveToLeaderboard(map[], r1, false, false) == Holding([r1])
  {
    UnreadableLeaderboardIsReplaced(map[], r1, false);
  }

  lemma OlderSave(r1: GameResult, r2: GameResult)
    requires r2.timestamp <= r1.timestamp
    ensures SaveToLeaderboard(Holding([r1]), r2, false, false) == Holding([r1, r2])
  {
    assert SaveToLeaderboard(Holding([r1]), r2, false, false) == Holding(InsertByTime([r1], r2)) by {
      SaveOntoList([r1], r2);
    }
    assert InsertByTime([r1], r2) == [r1, r2] by {
      InsertOldest([r1], r2);
      assert [r1] + [r2] == [r1, r2];
    }
  }

  lemma NewerSave(r1: GameResult, r2: GameResult, r3: GameResult)
    requires r2.timestamp <= r1.timestamp < r3.timestamp
    ensures SaveToLeaderboard(Holding([r1, r2]), r3, false, false) == Holding([r3, r1, r2])
  {
    assert SaveToLeaderboard(Holding([r1, r2]), r3, false, false) == Holding(InsertByTime([r1, r2], r3)) by {
      SaveOntoList([r1, r2], r3);
    }
    assert InsertByTime([r1, r2], r3) == [r3, r1, r2] by {
      InsertNewest([r1, r2], r3);
      assert [r3] + [r1, r2] == [r3, r1, r2];
    }
  }

  /**
   Results saved at 10:00, 09:00 and 11:00 (milliseconds since midnight) read back
   newest first: 11:00, 10:00, 09:00.
   */
  lemma LeaderboardNewestFirst(r1: GameResult, r2: GameResult, r3: GameResult)
    requires r1.timestamp == 36000000 && r2.timestamp == 32400000 && r3.timestamp == 39600000
    ensures var st1 := SaveToLeaderboard(map[], r1, false, false);
      var st2 := SaveToLeaderboard(st1, r2, false, false);
      var st3 := SaveToLeaderboard(st2, r3, false, false);
      GetLeaderboard(st3, false) == [r3, r1, r2]
  {
    FirstSave(r1);
    OlderSave(r1, r2);
    NewerSave(r1, r2, r3);
  }
}
