/**
 The session controller of app/index.tsx. `handlePress` is synchronous and changes
 only the session; `startNewGame`, `endGame` and `resetToWelcome` await the storage
 hook and are transitions of the whole app: session, store and in-memory leaderboard.
 Each handler is one atomic step.
 */
module Controller {
  import opened Wrappers
  import opened GameTypes
  import opened Engine
  import opened Storage

  /** The component state held in `useState`: screen, board, turn, score and names. */
  datatype Session = Session(
    state: GameState,
    board: Board,
    current: Symbol,
    score: Score,
    playerX: string,
    playerO: string)

  /** The initial `useState` values. */
  const Initial := Session(Welcome, EmptyBoard, X, ZeroScore, "", "")

  /** The session together with the key-value store and the loaded leaderboard. */
  datatype App = App(session: Session, store: Store, leaderboard: seq<GameResult>)

  /** `handlePress(index)`. */
  function HandlePress(s: Session, index: Index): Session {
    if s.board[index] != Empty || CheckWinner(s.board).Some? then s
    else
      var board := s.board[index := Mark(s.current)];
      match CheckWinner(board)
      case Some(w) => s.(board := board, score := s.score.Credit(w))
      case None => s.(board := board, current := s.current.Other())
  }

  /** A press on a filled cell, or on a board where a line is complete, changes nothing. */
  lemma PressRefused(s: Session, index: Index)
    requires s.board[index] != Empty || Decided(s.board)
    ensures HandlePress(s, index) == s
  {
    // Dafny proves this unaided as well; the call keeps the proof small.
    CheckWinnerSpec(s.board);
  }

  /**
   A press changes at most the pressed cell, never overwrites a filled cell, and keeps
   the screen and the names.
   */
  lemma PressFrame(s: Session, index: Index)
    ensures var r := HandlePress(s, index);
      && r.state == s.state && r.playerX == s.playerX && r.playerO == s.playerO
      && (forall j: Index :: j != index ==> r.board[j] == s.board[j])
      && (forall j: Index :: s.board[j] != Empty ==> r.board[j] == s.board[j])
  {
  }

  /**
   A press on an empty cell of an undecided board puts the mover's mark there, fills
   one more cell and never completes a line for the opponent. If the mover now has a
   line, the mover is credited one win and keeps the turn; otherwise the score stays
   and the turn passes.
   */
  lemma PressValidMove(s: Session, index: Index)
    requires s.board[index] == Empty && !Decided(s.board)
    ensures var r := HandlePress(s, index);
      && r.board == s.board[index := Mark(s.current)]
      && CountFilled(r.board) == CountFilled(s.board) + 1
      && !HasLine(r.board, s.current.Other())
      && (if HasLine(r.board, s.current)
          then r.score == s.score.Credit(s.current) && r.current == s.current
          else r.score == s.score && r.current == s.current.Other())
  {
    var board := s.board[index := Mark(s.current)];
    CheckWinnerSpec(s.board);
    CheckWinnerSpec(board);
    FillOneCell(s.board, index, Mark(s.current));
    MarkNeverHelpsOpponent(s.board, index, s.current);
  }

  /** A run of presses, applied in order. */
  function Presses(s: Session, moves: seq<Index>): Session
    decreases |moves|
  {
    if |moves| == 0 then s else Presses(HandlePress(s, moves[0]), moves[1..])
  }

  /** Once a line is complete, no press changes the session again. */
  lemma {:induction false} DecidedIsFrozen(s: Session, moves: seq<Index>)
    requires Decided(s.board)
    ensures Presses(s, moves) == s
    decreases |moves|
  {
    if |moves| > 0 {
      PressRefused(s, moves[0]);
      DecidedIsFrozen(HandlePress(s, moves[0]), moves[1..]);
    }
  }

  /** On a drawn board every cell is filled, so every press is refused. */
  lemma DrawIsFrozen(s: Session, index: Index)
    requires IsDraw(s.board)
    ensures HandlePress(s, index) == s
  {
  }

  /**
   From an undecided board, a run of presses credits at most one win: the total score
   rises by one exactly when the run ends on a decided board.
   */
  lemma {:induction false} CreditedAtMostOnce(s: Session, moves: seq<Index>)
    requires !Decided(s.board)
    ensures var r := Presses(s, moves);
      r.score.Total() == s.score.Total() + (if Decided(r.board) then 1 else 0)
    decreases |moves|
  {
    if |moves| > 0 {
      var next := HandlePress(s, moves[0]);
      if s.board[moves[0]] != Empty {
        PressRefused(s, moves[0]);
      } else {
        PressValidMove(s, moves[0]);
      }
      if Decided(next.board) {
        DecidedIsFrozen(next, moves[1..]);
        assert HasLine(next.board, s.current);
      } else {
        CreditedAtMostOnce(next, moves[1..]);
      }
    }
  }

  /** Presses never produce a board on which both players have a line. */
  lemma {:induction false} NeverTwoWinners(s: Session, moves: seq<Index>)
    requires !(HasLine(s.board, X) && HasLine(s.board, O))
    ensures var r := Presses(s, moves); !(HasLine(r.board, X) && HasLine(r.board, O))
    decreases |moves|
  {
    if |moves| > 0 {
      if s.board[moves[0]] != Empty || Decided(s.board) {
        PressRefused(s, moves[0]);
      } else {
        PressValidMove(s, moves[0]);
      }
      NeverTwoWinners(HandlePress(s, moves[0]), moves[1..]);
    }
  }

  /**
   `startNewGame`: with either name empty nothing happens (the source shows an
   alert). Otherwise a fresh round starts with X to move, the score and names are kept,
   and the stored snapshot is removed.
   */
  function StartNewGame(a: App, clearFault: bool): (a': App)
    ensures a.session.playerX == "" || a.session.playerO == "" ==> a' == a
    ensures a.session.playerX != "" && a.session.playerO != "" ==>
      && a'.session.state == Playing
      && CountFilled(a'.session.board) == 0
      && !Decided(a'.session.board)
      && a'.session.current == X
      && a'.session.score == a.session.score
      && a'.session.playerX == a.session.playerX && a'.session.playerO == a.session.playerO
      && (!clearFault ==> LoadGameState(a'.store, false) == None)
      && (clearFault ==> a'.store == a.store)
      && SameAt(a.store, a'.store, LeaderboardKey)
      && a'.leaderboard == a.leaderboard
    ensures Valid(a.store) ==> Valid(a'.store)
  {
    if a.session.playerX == "" || a.session.playerO == "" then a
    else
      var s := a.session.(board := EmptyBoard, current := X, state := Playing);
      EmptyBoardIsOpen();
      App(s, ClearGameState(a.store, clearFault), a.leaderboard)
  }

  /**
   The `GameResult` built by `endGame`: no winner exactly when no line is complete;
   otherwise the owner of the first complete line in scan order, named after that
   side's player.
   The scores and names are copied and the timestamp is the clock reading `now`.
   */
  function BuildResult(s: Session, now: int): (r: GameResult)
    ensures r.winner.None? <==> !Decided(s.board)
    ensures r.winner.Some? ==>
      && r.winner == Some(Player(if r.winner.value.symbol == X then s.playerX else s.playerO,
                                 r.winner.value.symbol))
      && HasLine(s.board, r.winner.value.symbol)
      && exists m :: 0 <= m < |Lines| && LineWonBy(s.board, m, r.winner.value.symbol) &&
           forall j :: 0 <= j < m ==> !LineComplete(s.board, j)
    ensures r.timestamp == now
    ensures r.playerX == s.playerX && r.playerO == s.playerO
    ensures r.scoreX == s.score.x && r.scoreO == s.score.o
  {
    CheckWinnerSpec(s.board);
    var winner := match CheckWinner(s.board)
      case Some(w) => Some(Player(if w == X then s.playerX else s.playerO, w))
      case None => None;
    GameResult(winner, now, s.playerX, s.playerO, s.score.x, s.score.o)
  }

  /**
   `endGame`: records the result in the stored leaderboard, reloads the leaderboard into
   memory and shows the end screen with an empty board and X to move; score and names
   stay for display.
   */
  function EndGame(a: App, now: int, readFault: bool, writeFault: bool, reloadFault: bool): (a': App)
    ensures a'.session.state == Ended
    ensures CountFilled(a'.session.board) == 0 && a'.session.current == X
    ensures a'.session.score == a.session.score
    ensures a'.session.playerX == a.session.playerX && a'.session.playerO == a.session.playerO
    ensures SameAt(a.store, a'.store, CurrentGame)
    ensures Valid(a.store) ==> Valid(a'.store)
    ensures !writeFault && !reloadFault ==>
      && BuildResult(a.session, now) in a'.leaderboard
      && SortedDesc(a'.leaderboard)
      && |a'.leaderboard| == |GetLeaderboard(a.store, readFault)| + 1
      && multiset(a'.leaderboard)
           == multiset(GetLeaderboard(a.store, readFault)) + multiset{BuildResult(a.session, now)}
    ensures writeFault ==> a'.store == a.store
    ensures !writeFault ==>
      && SortedDesc(GetLeaderboard(a'.store, false))
      && multiset(GetLeaderboard(a'.store, false))
           == multiset(GetLeaderboard(a.store, readFault)) + multiset{BuildResult(a.session, now)}
    ensures writeFault && !reloadFault ==> a'.leaderboard == GetLeaderboard(a.store, false)
    ensures reloadFault ==> a'.leaderboard == []
  {
    var result := BuildResult(a.session, now);
    var store := SaveToLeaderboard(a.store, result, readFault, writeFault);
    var shown := GetLeaderboard(store, reloadFault);
    SaveThenGetLeaderboard(a.store, result, readFault);
    EmptyBoardIsOpen();
    App(a.session.(state := Ended, board := EmptyBoard, current := X), store, shown)
  }

  /**
   `resetToWelcome`: back to the welcome screen with a zero score, an empty board, X to
   move and no names; the stored snapshot is removed. The leaderboard is untouched.
   */
  function ResetToWelcome(a: App, clearFault: bool): (a': App)
    ensures a'.session.state == Welcome
    ensures a'.session.score == ZeroScore
    ensures CountFilled(a'.session.board) == 0 && a'.session.current == X
    ensures a'.session.playerX == "" && a'.session.playerO == ""
    ensures !clearFault ==> LoadGameState(a'.store, false) == None
    ensures clearFault ==> a'.store == a.store
    ensures SameAt(a.store, a'.store, LeaderboardKey)
    ensures Valid(a.store) ==> Valid(a'.store)
    ensures a'.leaderboard == a.leaderboard
  {
    EmptyBoardIsOpen();
    ClearThenLoad(a.store, false);
    App(Initial, ClearGameState(a.store, clearFault), a.leaderboard)
  }

  /** The snapshot `saveGame` writes. */
  function Snapshot(s: Session): GameStorage {
    GameStorage(s.state, s.board, s.current, s.score, s.playerX, s.playerO)
  }

  /**
   `loadGame`'s restore: a loaded snapshot replaces every field of the session, and
   without one the session is left as it is.
   */
  function LoadGame(s: Session, saved: Option<GameStorage>): (r: Session)
    ensures saved.None? ==> r == s
    ensures saved.Some? ==> Snapshot(r) == saved.value
  {
    match saved
    case Some(g) => Session(g.gameState, g.board, g.currentPlayer, g.score, g.playerX, g.playerO)
    case None => s
  }

  /** The snapshot holds the whole session: restoring it gives the session back. */
  lemma RestoreSnapshot(s: Session, t: Session)
    ensures LoadGame(t, Some(Snapshot(s))) == s
  {
  }

  /**
   The mount effect: `loadGame` then `loadLeaderboard` against the store, starting
   from the initial session.
   */
  function Boot(st: Store, gameFault: bool, leaderboardFault: bool): (a: App)
    ensures a.store == st
    ensures LoadGameState(st, gameFault).None? ==> a.session == Initial
    ensures LoadGameState(st, gameFault).Some? ==> Snapshot(a.session) == LoadGameState(st, gameFault).value
    ensures a.leaderboard == GetLeaderboard(st, leaderboardFault)
  {
    App(LoadGame(Initial, LoadGameState(st, gameFault)), st, GetLeaderboard(st, leaderboardFault))
  }

  /** The auto-save effect as an explicit step: write the current snapshot. */
  function AutoSave(a: App, fault: bool): (a': App)
    ensures a'.session == a.session && a'.leaderboard == a.leaderboard
    ensures !fault ==> LoadGameState(a'.store, false) == Some(Snapshot(a.session))
    ensures fault ==> a'.store == a.store
    ensures SameAt(a.store, a'.store, LeaderboardKey)
    ensures Valid(a.store) ==> Valid(a'.store)
  {
    a.(store := SaveGameState(a.store, Snapshot(a.session), fault))
  }

  /** An interrupted session that was auto-saved resumes exactly on the next mount. */
  lemma ResumeAfterAutoSave(a: App, leaderboardFault: bool)
    ensures Boot(AutoSave(a, false).store, false, leaderboardFault).session == a.session
  {
    RestoreSnapshot(a.session, Initial);
  }

  /** After `resetToWelcome` the names are empty, so `startNewGame` is refused. */
  lemma StartAfterResetIsRefused(a: App, resetFault: bool, clearFault: bool)
    ensures var w := ResetToWelcome(a, resetFault);
      StartNewGame(w, clearFault) == w
  {
  }

  /**
   Playing again from the end screen keeps the accumulated score, while a return to
   the welcome screen clears it.
   */
  lemma ScoreCarriesIntoNextRound(a: App, now: int, readFault: bool, writeFault: bool,
                                  reloadFault: bool, clearFault: bool)
    ensures var e := EndGame(a, now, readFault, writeFault, reloadFault);
      && StartNewGame(e, clearFault).session.score == a.session.score
      && ResetToWelcome(e, clearFault).session.score == ZeroScore
  {
  }

  /**
   On a valid store with no faults, the leaderboard shown after `endGame` is the old
   list with the new result inserted stably.
   */
  lemma EndGameInsertsResult(a: App, now: int)
    requires Valid(a.store)
    ensures EndGame(a, now, false, false, false).leaderboard
      == InsertByTime(GetLeaderboard(a.store, false), BuildResult(a.session, now))
  {
    SaveInsertsIntoSortedList(a.store, BuildResult(a.session, now), false);
  }
}
