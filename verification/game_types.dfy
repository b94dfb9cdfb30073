/**
 The records of the tic-tac-toe app (app/types/game.ts), with the marks and the
 board that the app keeps as strings (`'X'`, `'O'`, `''`) written as datatypes.
 */
module GameTypes {
  import opened Wrappers

  /** A player's mark, `'X' | 'O'`. */
  datatype Symbol = X | O {

    /** The opponent's mark: the toggle `currentPlayer === 'X' ? 'O' : 'X'`. */
    function Other(): (q: Symbol)
      ensures q != this
    {
      if this == X then O else X
    }
  }

  /** One cell of the board; `Empty` is the empty string of the source. */
  datatype Cell = Empty | Mark(symbol: Symbol)

  /** The board is always nine cells, indexed row by row. */
  type Board = b: seq<Cell> | |b| == 9
    witness [Empty, Empty, Empty, Empty, Empty, Empty, Empty, Empty, Empty]

  /** A cell index as produced by the nine pressable cells. */
  type Index = i: int | 0 <= i < 9

  /** `Array(9).fill('')`. */
  const EmptyBoard: Board := [Empty, Empty, Empty, Empty, Empty, Empty, Empty, Empty, Empty]

  /** The running score `{ X, O }`. */
  datatype Score = Score(x: nat, o: nat) {

    function Of(p: Symbol): nat {
      if p == X then x else o
    }

    /** The score with one more win for `p`: `{ ...prev, [p]: prev[p] + 1 }`. */
    function Credit(p: Symbol): (r: Score)
      ensures r.Of(p) == Of(p) + 1
      ensures r.Of(p.Other()) == Of(p.Other())
    {
      if p == X then this.(x := x + 1) else this.(o := o + 1)
    }

    /** The number of wins credited to either player. */
    function Total(): nat {
      x + o
    }
  }

  /** `{ X: 0, O: 0 }`. */
  const ZeroScore := Score(0, 0)

  datatype GameState = Welcome | Playing | Ended

  datatype Player = Player(name: string, symbol: Symbol)

  /**
   The record appended to the leaderboard when a game ends. `winner` is None for a
   draw. `timestamp` is the ISO-8601 instant read back through `new Date(..).getTime()`,
   kept as milliseconds since the epoch.
   */
  datatype GameResult = GameResult(
    winner: Option<Player>,
    timestamp: int,
    playerX: string,
    playerO: string,
    scoreX: nat,
    scoreO: nat)

  /** The persisted session snapshot. */
  datatype GameStorage = GameStorage(
    gameState: GameState,
    board: Board,
    currentPlayer: Symbol,
    score: Score,
    playerX: string,
    playerO: string)
}
