/**
 * The mutable session counters of the modular engine
 * (src/core/game_state.py): score, rows, level, fall delay, the current and
 * next piece with the current piece's position, and the level-mode flags.
 */
module GameStates {
  import opened Shapes
  import opened Pieces
  import GameConfig

  /** The two game modes, by the names the game stores. */
  const CLASSIC: string := "classic"
  const LEVEL_MODE: string := "level"

  /** The counters a line clear updates, as one value. */
  datatype Counters = Counters(score: int, lines: int, level: int, dropDelay: int)

  class GameState {
    var score: int
    var level: int
    var linesCleared: int
    var gameOver: bool
    var paused: bool
    var currentPiece: Piece?
    var nextPiece: Piece?
    var piecePosition: (int, int)
    var dropDelay: int
    var gameMode: string
    var currentLevelId: int
    var levelComplete: bool
    var levelFailed: bool
    var levelStars: int

    /** Every field holds its value of a new session. */
    predicate IsInitial()
      reads this
    {
      score == 0 && level == 1 && linesCleared == 0 && !gameOver && !paused &&
      currentPiece == null && nextPiece == null && piecePosition == (0, 0) && dropDelay == 1000 &&
      gameMode == CLASSIC && currentLevelId == 1 && !levelComplete && !levelFailed && levelStars == 0
    }

    /** Level and fall delay agree with the rows cleared so far. */
    predicate Consistent()
      reads this
    {
      level == GameConfig.Level(linesCleared) && dropDelay == GameConfig.DropDelay(level)
    }

    function Tally(): Counters
      reads this`score, this`linesCleared, this`level, this`dropDelay
    {
      Counters(score, linesCleared, level, dropDelay)
    }

    constructor ()
      ensures IsInitial() && Consistent()
    {
      score, level, linesCleared := 0, 1, 0;
      gameOver, paused := false, false;
      currentPiece, nextPiece := null, null;
      piecePosition := (0, 0);
      dropDelay := 1000;
      gameMode := CLASSIC;
      currentLevelId := 1;
      levelComplete, levelFailed := false, false;
      levelStars := 0;
    }

    /** Adds the points for `n` rows at the current level and counts the rows. */
    method UpdateScore(n: int)
      modifies this`score, this`linesCleared
      ensures score == old(score) + GameConfig.Score(n, level)
      ensures linesCleared == old(linesCleared) + n
      ensures n == 0 ==> score == old(score) && linesCleared == old(linesCleared)
    {
      score := score + GameConfig.Score(n, level);
      linesCleared := linesCleared + n;
    }

    /** Recomputes the level from the rows cleared; the fall delay is
        recomputed only when the level changes. */
    method UpdateLevel()
      modifies this`level, this`dropDelay
      ensures level == GameConfig.Level(linesCleared)
      ensures dropDelay == if level != old(level) then GameConfig.DropDelay(level) else old(dropDelay)
      ensures old(dropDelay) == GameConfig.DropDelay(old(level)) ==> Consistent()
    {
      var newLevel := GameConfig.Level(linesCleared);
      if newLevel != level {
        level := newLevel;
        dropDelay := GameConfig.DropDelay(level);
      }
    }

    /** Makes a new piece of kind `k` current, at half its width across and row 0. */
    method SpawnPiece(k: Kind)
      modifies this`currentPiece, this`piecePosition
      ensures currentPiece != null && fresh(currentPiece) && currentPiece.Valid()
      ensures currentPiece.kind == k && currentPiece.rotation == 0
      ensures piecePosition == (currentPiece.Width() / 2, 0)
    {
      var p := new Piece(k);
      currentPiece := p;
      piecePosition := (p.Width() / 2, 0);
    }

    method SetPiecePosition(x: int, y: int)
      modifies this`piecePosition
      ensures GetPiecePosition() == (x, y)
    {
      piecePosition := (x, y);
    }

    function GetPiecePosition(): (p: (int, int))
      reads this
      ensures IsInitial() ==> p == (0, 0)
    {
      piecePosition
    }

    /** Puts every field back to its value of a new session, including the
        mode, which returns to classic. */
    method Reset()
      modifies this
      ensures IsInitial() && Consistent()
    {
      score, level, linesCleared := 0, 1, 0;
      gameOver, paused := false, false;
      currentPiece, nextPiece := null, null;
      piecePosition := (0, 0);
      dropDelay := 1000;
      gameMode := CLASSIC;
      currentLevelId := 1;
      levelComplete, levelFailed := false, false;
      levelStars := 0;
    }
  }
}
