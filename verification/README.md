# Tic-tac-toe: engine, session controller and storage hook

A model of the core of a two-player tic-tac-toe app written in React Native. The
model covers three parts:

- The game engine in `app/index.tsx`:
  - `checkWinner` scans the eight lines of the 3×3 board in a fixed order.
  - `handlePress` places a mark, credits a win or passes the turn.
  - The draw test.
- The session controller in the same file. It moves between the welcome, playing
  and ended screens through `startNewGame`, `endGame` and `resetToWelcome`. It
  restores a saved snapshot on mount and builds the `GameResult` record when a
  game ends.
- The storage hook in `app/hooks/useGameStorage.ts`:
  - the current-game snapshot (`saveGameState`, `loadGameState`, `clearGameState`);
  - the leaderboard (`getLeaderboard`, `saveToLeaderboard`). The leaderboard is
    kept newest first.

The types follow `app/types/game.ts`.

Files:

- `wrappers.dfy`: `Option`, standing in for `T | null`.
- `game_types.dfy`: the records. Marks and cells are datatypes rather than the
  strings `'X'`, `'O'` and `''`. The board is a nine-cell sequence.
- `engine.dfy`: the line table, `checkWinner`, the filled-cell count and the draw
  test, with their characterisation lemmas.
- `storage.dfy`: the hook over one abstract store, a `map<Key, Value>`.
  - A value is the stored document itself, because serialisation is the identity.
  - `Corrupt` stands for text that `JSON.parse` rejects.
  - Every backend call that can throw takes a `fault` flag. The hook catches every
    exception, so a failed write leaves the store unchanged and a failed read
    yields the default (`null` or `[]`).
  - The stable descending sort is modelled as an insertion sort that inserts from
    the back of the list.
- `controller.dfy`: the component state as a `Session`, and the whole app as
  `App(session, store, leaderboard)`.
  - `handlePress` is a pure transition of the session.
  - The asynchronous handlers are transitions of the whole app. Each is one atomic
    step.
- `scenarios.dfy`: concrete rounds and leaderboard histories worked through the
  model.

## Model

| member | source | states |
|---|---|---|
| `GameTypes.Symbol.Other` | app/index.tsx:93 | The turn toggle yields the other mark. |
| `GameTypes.Score.Credit` | app/index.tsx:88-91 | Crediting `p` raises `p`'s count by one and leaves the opponent's count alone. |
| `Engine.FirstWinnerSpec` | app/index.tsx:70-76 | Scanning from line `k` returns null exactly when no line from `k` on is complete. Otherwise it returns the owner of the first complete line at or after `k`. |
| `Engine.CheckWinnerSpec` | app/index.tsx:63-77 | `checkWinner` is null exactly when no row, column or diagonal holds three equal non-empty cells. Otherwise it returns the symbol of a line that does, and that line is the first complete one in the order rows, columns, diagonals. When only one player has a line, that player is returned. |
| `Engine.CountFilledSpec` | app/index.tsx:156 | The count of filled cells is at most the board size. It is the full size exactly when every cell is filled, and zero exactly when every cell is empty. |
| `Engine.IsDrawSpec` | app/index.tsx:155-156 | The draw test holds exactly when no line is complete and all nine cells are filled. |
| `Engine.EmptyBoardIsOpen` | app/index.tsx:16 | `Array(9).fill('')` has no filled cell and no complete line. |
| `Engine.FillOneCell` | app/index.tsx:82-83 | Writing a mark into one empty cell raises the filled count by exactly one. |
| `Engine.MarkNeverHelpsOpponent` | app/index.tsx:82-86 | Placing the mover's mark never completes a line for the opponent. |
| `Storage.InsertionPointSpec` | app/hooks/useGameStorage.ts:40-42 | On a newest-first list, the place where a result goes comes after every entry at least as recent and before every strictly older entry. |
| `Storage.InsertionPointAtEnd` | app/hooks/useGameStorage.ts:40-42 | A result no newer than any listed entry goes at the end. |
| `Storage.InsertByTimeSpec` | app/hooks/useGameStorage.ts:39-42 | Inserting into a newest-first list keeps it newest first and adds exactly the new result: multiset plus one, length plus one. |
| `Storage.InsertIsStable` | app/hooks/useGameStorage.ts:40-42 | The insertion is stable. Removing the new result gives back the old list in its order, and every entry after the new result is strictly older. |
| `Storage.SortByTimeSpec` | app/hooks/useGameStorage.ts:40-42 | The descending sort by timestamp yields a newest-first permutation of its input. |
| `Storage.SortSortedIsIdentity` | app/hooks/useGameStorage.ts:40-42 | Sorting a list that is already newest first leaves it unchanged, including the order of ties. |
| `Storage.InsertOldest` | app/hooks/useGameStorage.ts:39-42 | A result no newer than any listed entry ends up last, as if only appended. |
| `Storage.InsertNewest` | app/hooks/useGameStorage.ts:39-42 | A result newer than the head of the list ends up first. |
| `Storage.SaveGameState` | app/hooks/useGameStorage.ts:8-19 | The snapshot key holds the new snapshot. A failed write leaves the store unchanged. The leaderboard key is never touched, and the store invariant is kept. |
| `Storage.LoadGameState` | app/hooks/useGameStorage.ts:21-34 | The result is the stored snapshot exactly when the read succeeds and the key holds a parsable snapshot. Otherwise it is null. |
| `Storage.ClearGameState` | app/hooks/useGameStorage.ts:70-80 | The snapshot key is removed. A failed remove leaves the store unchanged, and the leaderboard key is never touched. |
| `Storage.GetLeaderboard` | app/hooks/useGameStorage.ts:55-68 | The result is the stored list when the read succeeds and parses. It is `[]` when the read fails, the key is absent or the text does not parse. On a valid store the result is newest first. |
| `Storage.SaveToLeaderboard` | app/hooks/useGameStorage.ts:36-53 | After a successful write, the stored list is newest first and is a permutation of the list read plus the new result, one longer. A failed write changes nothing. The snapshot key is never touched, and the store invariant is kept. |
| `Storage.SaveThenLoad` | app/hooks/useGameStorage.ts:8-29 | A snapshot saved and loaded without a fault comes back unchanged. |
| `Storage.ClearThenLoad` | app/hooks/useGameStorage.ts:21-80 | After a successful clear, every later load returns null. |
| `Storage.SaveThenGetLeaderboard` | app/hooks/useGameStorage.ts:36-68 | After a successful save, reading the leaderboard back, when that read succeeds, gives a newest-first list that contains the new result and is one longer than the list read. |
| `Storage.UnreadableLeaderboardIsReplaced` | app/hooks/useGameStorage.ts:36-66 | When the leaderboard read fails, the key is absent or the text is corrupt, saving replaces the stored list with the single new result when the write succeeds. |
| `Storage.SaveInsertsIntoSortedList` | app/hooks/useGameStorage.ts:36-53 | On a valid store, append-then-sort equals a stable insertion of the new result into the list read. |
| `Storage.SaveOntoList` | app/hooks/useGameStorage.ts:36-53 | A store holding only a sorted list ends up holding only that list with the result inserted. |
| `Controller.PressRefused` | app/index.tsx:80 | A press on a filled cell, or on a board where some line is complete, changes nothing: board, score and turn all stay. |
| `Controller.PressFrame` | app/index.tsx:79-95 | A press changes no cell other than the pressed one and never overwrites a filled cell. The screen and the names stay. |
| `Controller.PressValidMove` | app/index.tsx:82-94 | A valid press writes the mover's mark into exactly the pressed cell, and the filled count rises by one. If the mover now has a line, the mover is credited once and keeps the turn. Otherwise the score stays and the turn passes. The opponent never gains a line. |
| `Controller.DecidedIsFrozen` | app/index.tsx:80 | Once a line is complete, no run of presses changes the session. |
| `Controller.DrawIsFrozen` | app/index.tsx:80 | On a drawn board every press is refused. |
| `Controller.CreditedAtMostOnce` | app/index.tsx:80-94 | From an undecided board, a run of presses adds one to the total score exactly when the run ends decided, and zero otherwise. |
| `Controller.NeverTwoWinners` | app/index.tsx:80-94 | Presses never produce a board on which both players have a line. |
| `Controller.StartNewGame` | app/index.tsx:97-107 | With either name empty, nothing changes. Otherwise the result has the playing screen, an empty undecided board and X to move. The score and names are kept. The snapshot is cleared, or the store stays unchanged when the remove fails. The leaderboard is untouched and the store invariant is kept. |
| `Controller.BuildResult` | app/index.tsx:110-121 | The winner is null exactly when no line is complete. Otherwise the winner is the owner of the first complete line in scan order, named `playerX` for X and `playerO` for O. The timestamp is the clock reading, and names and scores are copied. |
| `Controller.EndGame` | app/index.tsx:109-129 | The app moves to the ended screen with an empty board and X to move, score and names kept. The game result is stored: after a successful write the stored leaderboard is newest first and is the list read plus the new result, as a multiset. A failed write leaves the store unchanged. The snapshot key is never touched, and the store invariant is kept. Without write or reload faults, the reloaded leaderboard is newest first and is the list read plus the new result, as a multiset, so it is one longer. After a failed write with a successful reload, the old stored list is shown. A failed reload shows `[]`. |
| `Controller.ResetToWelcome` | app/index.tsx:131-139 | The result has the welcome screen, a zero score, an empty board, X to move and empty names. The snapshot is cleared, or the store stays unchanged when the remove fails. The leaderboard is untouched and the store invariant is kept. |
| `Controller.LoadGame` | app/index.tsx:31-41 | A loaded snapshot replaces every session field. Without one, the session stays. |
| `Controller.RestoreSnapshot` | app/index.tsx:31-57 | The snapshot that `saveGame` writes holds the whole session: restoring it gives the same session back. |
| `Controller.Boot` | app/index.tsx:26-46 | On mount, the session is the loaded snapshot, or the initial state when there is none. The in-memory leaderboard is the list read. |
| `Controller.AutoSave` | app/index.tsx:48-61 | The save effect writes the current snapshot without touching the session, the in-memory leaderboard or the leaderboard key. A failed write leaves the store unchanged, and the store invariant is kept. |
| `Controller.ResumeAfterAutoSave` | app/index.tsx:26-61 | A session that was auto-saved without a fault is resumed exactly on the next mount when that mount's snapshot read succeeds. |
| `Controller.StartAfterResetIsRefused` | app/index.tsx:97-139 | After a return to the welcome screen the names are empty, so starting a game is refused. |
| `Controller.ScoreCarriesIntoNextRound` | app/index.tsx:97-139 | Playing again after a game ends keeps the accumulated score, while a return to the welcome screen zeroes it. |
| `Controller.EndGameInsertsResult` | app/index.tsx:109-124 | On a valid store with no faults, the leaderboard shown after a game ends is the old list with the result inserted stably. |
| `Scenarios.LeftColumnStep1` | app/index.tsx:79-95 | X at cell 0 on the empty board passes the turn to O. |
| `Scenarios.LeftColumnStep2` | app/index.tsx:79-95 | O at cell 1 passes the turn back to X. |
| `Scenarios.LeftColumnStep3` | app/index.tsx:79-95 | X at cell 3 passes the turn to O. |
| `Scenarios.LeftColumnStep4` | app/index.tsx:79-95 | O at cell 4 passes the turn back to X. |
| `Scenarios.LeftColumnStep5` | app/index.tsx:79-95 | X at cell 6 completes the left column: X is credited and keeps the turn. |
| `Scenarios.LeftColumnWin` | app/index.tsx:63-95 | The presses 0, 1, 3, 4, 6 end with X the winner, score one to zero and X still to move. |
| `Scenarios.FullBoardDraw` | app/index.tsx:155-156 | The full board X O X / O X O / O X O has no winner and is a draw. |
| `Scenarios.ScanOrderDecides` | app/index.tsx:63-77 | When X holds the top row and O the middle row, the scan order returns X. |
| `Scenarios.StartWithoutNameIsRefused` | app/index.tsx:97-101 | Starting with an empty name for X changes nothing. |
| `Scenarios.FirstSave` | app/hooks/useGameStorage.ts:36-68 | Saving onto an empty store holds the single result. |
| `Scenarios.OlderSave` | app/hooks/useGameStorage.ts:36-53 | An older result saved after a newer one goes behind it. |
| `Scenarios.NewerSave` | app/hooks/useGameStorage.ts:36-53 | A result newer than every stored one goes to the front. |
| `Scenarios.LeaderboardNewestFirst` | app/hooks/useGameStorage.ts:36-68 | Results saved at 10:00, 09:00 and 11:00 read back as 11:00, 10:00, 09:00. |

## Left out

- Rendering and styling are not modelled: `renderCell`, the screen renderers, the status string, the style sheets and the `Leaderboard` and `PlayerNameInput` components. They contain no decision logic.
- React scheduling is not modelled. Each handler is one atomic step, and the ordering of `useState` updates and effects is not represented.
- The auto-save effect is the explicit step `AutoSave`. It writes the names of the current session. The source effect's dependency list leaves out the names, so a name change alone does not trigger a save.
- Interleavings of concurrent asynchronous handlers are left out, because each handler is one step. An example is the mount effect's load racing the first auto-save.
- The `Platform.OS` branching and the real `AsyncStorage` and `localStorage` backends are not modelled. They are replaced by one abstract map, and the backend exceptions become fault flags.
- Serialisation is not modelled: `JSON.stringify` and `JSON.parse` are the identity, plus a `Corrupt` value for text that does not parse.
- A parsable document of the wrong shape is read as the default. The source would hand it on unchecked. For a non-array document under the leaderboard key, the source's `leaderboard.push` throws and the catch leaves the store unchanged, whereas the model writes `[r]`. `Storage.Valid` rules out such documents, and every write of the hook and every handler keeps it.
- Timestamps are milliseconds since the epoch. The ISO-8601 formatting of `new Date().toISOString()` and its parsing back through `new Date(..).getTime()` are not modelled, and neither is `toLocaleDateString` (display only).
- `Controller.BuildResult` takes the clock reading `now` as a parameter, because `new Date()` reads the system clock.
- The `alert` when a name is missing and the `console.error` logging are left out. They are UI and logging side effects with no effect on state.
- The storage key constants file is not part of this model. The two keys are only assumed to be distinct.
- The `showLeaderboard` toggle and the name setters bound to the text inputs are not modelled. They only assign the value typed or pressed.
- The snapshot types the board and the current player as marks. The source's `string[]` and `string` could hold any text if the stored data were edited by hand.
- No handler checks which screen is showing. The source has no such guard, and the buttons shown on each screen decide which handler can run.
