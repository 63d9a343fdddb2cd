/**
 * The optimized engine (src/core/optimized_game_engine.py): the same game
 * rules as the modular engine, with three differences in the game loop. Its
 * drop has no pause guard of its own: a piece that cannot move down is
 * placed even while the game is paused or over. The per-frame fall compares
 * the elapsed time with the level curve's delay instead of the session's
 * stored delay, and falls without looking at the mode or the current piece;
 * it checks neither the level's time nor its failure.
 *
 * The operations are specified by the snapshot functions of `Engines`; the
 * clock and the random kinds are parameters, as there.
 */
module OptimizedEngines {
  import opened Wrappers
  import opened Shapes
  import opened Pieces
  import opened Boards
  import opened Collision
  import GameConfig
  import opened GameStates
  import opened LevelManagers
  import opened Engines

  /** `r` is the session after a drop from `v`: the piece one row down when
      the move is accepted, otherwise the piece placed as `PlacedTo` says. */
  predicate DroppedTo(v: Snapshot, locked: Snapshot, done: bool, stars: int, k1: Kind, k2: Kind, r: Snapshot)
    requires SnapOk(v)
  {
    if Shifted(v, 0, 1).0 then r == Shifted(v, 0, 1).1 && !done
    else PlacedTo(v, locked, done, stars, k1, k2, r)
  }

  /** While the game runs, a drop is exactly the modular engine's automatic
      fall. */
  lemma DroppedToIsFall(v: Snapshot, locked: Snapshot, done: bool, stars: int, k1: Kind, k2: Kind, r: Snapshot)
    requires SnapOk(v) && Running(v)
    ensures DroppedTo(v, locked, done, stars, k1, k2, r) <==> FellTo(v, locked, done, stars, k1, k2, r)
  {
  }

  /** A paused game is not protected from a drop: a piece that fits where it
      stands is written into the grid, and the pieces move on. */
  lemma PausedDropPlaces(v: Snapshot, locked: Snapshot, done: bool, stars: int, k1: Kind, k2: Kind, r: Snapshot)
    requires SnapOk(v) && PiecesInTable(v) && v.paused && Placeable(v)
    requires DroppedTo(v, locked, done, stars, k1, k2, r)
    ensures locked.grid == Compacted(Stamp(v.grid, v.current.value.shape, v.pos.0, v.pos.1, v.current.value.color), 10)
    ensures !done ==> r.paused && r.grid == locked.grid &&
                      r.current == Some(if v.next.Some? then v.next.value else Entered(k1))
  {
    assert !Shifted(v, 0, 1).0;
  }

  class OptimizedEngine {
    var board: Board
    var gameState: GameState
    var lastDropTime: int
    /** Created with the engine. */
    var levelManager: LevelManager?

    /** The board is 10 x 20 and well formed, the pieces have rectangular
        shapes and are distinct objects, and a level time limit comes with a
        start time. */
    ghost predicate Valid()
      reads this`board, this`gameState, this`levelManager, board, gameState`currentPiece, gameState`nextPiece,
            gameState.currentPiece, gameState.nextPiece, Managers()`timeLimit, Managers()`startTime
    {
      BoardOk() && ClockOk() && Shaped()
    }

    /** The board is 10 x 20 and well formed. */
    ghost predicate BoardOk()
      reads this`board, board
    {
      board.Valid() && board.width == 10 && board.height == 20
    }

    /** A level time limit comes with a start time. */
    predicate ClockOk()
      reads this`levelManager, Managers()`timeLimit, Managers()`startTime
    {
      levelManager != null ==> levelManager.Started()
    }

    /** The pieces have rectangular shapes and are distinct objects. */
    ghost predicate Shaped()
      reads this`gameState, gameState`currentPiece, gameState`nextPiece, gameState.currentPiece, gameState.nextPiece
    {
      (gameState.currentPiece != null ==> IsShape(gameState.currentPiece.shape) &&
                                          gameState.currentPiece != gameState.nextPiece) &&
      (gameState.nextPiece != null ==> IsShape(gameState.nextPiece.shape))
    }

    /** The current and the reserve piece are states of their kind's table. */
    ghost predicate PiecesValid()
      reads this`gameState, gameState`currentPiece, gameState`nextPiece, gameState.currentPiece, gameState.nextPiece
    {
      (gameState.currentPiece != null ==> gameState.currentPiece.Valid()) &&
      (gameState.nextPiece != null ==> gameState.nextPiece.Valid())
    }

    /** The session as a value. */
    function Snap(): Snapshot
      reads this`board, board`grid, this`gameState, gameState, gameState.currentPiece, gameState.nextPiece
    {
      var gs := gameState;
      Snapshot(board.grid, gs.Tally(),
               if gs.currentPiece == null then None else Some(gs.currentPiece.View()),
               if gs.nextPiece == null then None else Some(gs.nextPiece.View()),
               gs.piecePosition, gs.gameOver, gs.paused, gs.gameMode,
               gs.levelComplete, gs.levelFailed, gs.levelStars)
    }

    /** The level rules apply only with a level manager in level mode. */
    predicate InLevelMode()
      reads this`levelManager, this`gameState, gameState`gameMode
    {
      levelManager != null && gameState.gameMode == LEVEL_MODE
    }

    /** The kinds a new piece may be drawn from. */
    function Allowed(): seq<Kind>
      reads this`levelManager, this`gameState, gameState`gameMode, Managers()`currentLevelConfig
    {
      if InLevelMode() then levelManager.AvailablePieceTypes() else ALL_KINDS
    }

    /** Session `w`, just after a lock, completes the level at time `now`. */
    predicate Completes(w: Snapshot, now: int)
      reads this`levelManager, Managers()`currentLevelConfig, Managers()`timeLimit, Managers()`startTime
    {
      levelManager != null && w.mode == LEVEL_MODE &&
      levelManager.CheckLevelComplete(w.tally.lines, w.tally.score, now)
    }

    /** The grade such a completion earns. */
    function Earned(w: Snapshot, now: int): int
      reads this`levelManager, Managers()`currentLevelConfig, Managers()`timeLimit, Managers()`startTime
    {
      if !Completes(w, now) then 0
      else levelManager.Stars(w.tally.lines, w.tally.score, levelManager.TimeRemaining(now))
    }

    /** The level outcome of a placement from `v` that locked as `locked`. */
    predicate Decided(v: Snapshot, locked: Snapshot, now: int, done: bool, stars: int)
      reads this`levelManager, Managers()`currentLevelConfig, Managers()`timeLimit, Managers()`startTime
      requires SnapOk(v)
    {
      done == (Placeable(v) && Completes(locked, now)) && stars == (if done then Earned(locked, now) else 0)
    }

    function CurrentPieces(): set<Piece>
      reads this`gameState, gameState`currentPiece
    {
      if gameState.currentPiece == null then {} else {gameState.currentPiece}
    }

    function Managers(): set<LevelManager>
      reads this`levelManager
    {
      if levelManager == null then {} else {levelManager}
    }

    /** A new engine: an empty board, a new session, the fall clock at `now`
        and a new level manager with no level loaded. */
    constructor (now: int)
      ensures Valid() && PiecesValid() && fresh(board) && fresh(gameState)
      ensures Snap() == Initial() && gameState.IsInitial() && lastDropTime == now
      ensures levelManager != null && fresh(levelManager) && levelManager.Valid()
      ensures levelManager.currentLevelConfig == None && levelManager.completedLevels == []
    {
      board := new Board(GameConfig.BOARD_WIDTH, GameConfig.BOARD_HEIGHT);
      gameState := new GameState();
      lastDropTime := now;
      levelManager := new LevelManager();
    }

    /** Draws a reserve of kind `k1` when there is none. */
    method Reserve(k1: Kind)
      requires Valid() && PiecesValid()
      modifies gameState`nextPiece
      ensures Valid() && PiecesValid() && gameState.nextPiece != null
      ensures Snap() == Reserved(old(Snap()), k1)
    {
      if gameState.nextPiece == null {
        gameState.nextPiece := new Piece(k1);
        StatesAreShapes(k1, 0);
      }
    }

    /** Promotes the reserve and draws a new one of kind `k2`. */
    method Promote(k2: Kind)
      requires Valid() && PiecesValid() && gameState.nextPiece != null
      modifies gameState`currentPiece, gameState`nextPiece
      ensures Valid() && PiecesValid() && gameState.currentPiece != null && fresh(gameState.nextPiece)
      ensures Snap() == Promoted(old(Snap()), k2)
    {
      gameState.currentPiece := gameState.nextPiece;
      gameState.nextPiece := new Piece(k2);
      StatesAreShapes(k2, 0);
    }

    /** Puts the current piece at its spawn column on row 0 and ends the game
        if it does not fit there. */
    method Enter()
      requires Valid() && PiecesValid() && gameState.currentPiece != null
      modifies gameState`piecePosition, gameState`gameOver
      ensures Snap() == Entering(old(Snap()))
    {
      var piece := gameState.currentPiece;
      StatesAreShapes(piece.kind, piece.rotation);
      var x := SpawnColumn(piece.Width());
      gameState.SetPiecePosition(x, 0);
      var ok := board.IsValidPosition(piece, x, 0);
      if !ok {
        gameState.gameOver := true;
      }
    }

    /** Promotes the reserve, draws a new one, puts the current piece at its
        spawn column on row 0, and ends the game if it does not fit there. */
    method SpawnNewPiece(k1: Kind, k2: Kind)
      requires Valid() && PiecesValid() && k1 in Allowed() && k2 in Allowed()
      modifies gameState`currentPiece, gameState`nextPiece, gameState`piecePosition, gameState`gameOver
      ensures Valid() && PiecesValid() && fresh(gameState.nextPiece)
      ensures Snap() == Spawned(old(Snap()), k1, k2)
    {
      Reserve(k1);
      Promote(k2);
      Enter();
    }

    /** Shifts the current piece by (dx, dy) when the game is running and the
        shifted position is valid. */
    method MovePiece(dx: int, dy: int) returns (ok: bool)
      requires Valid()
      modifies gameState`piecePosition
      ensures Valid() && (old(PiecesValid()) ==> PiecesValid()) && Allowed() == old(Allowed())
      ensures (ok, Snap()) == Shifted(old(Snap()), dx, dy)
    {
      if gameState.paused || gameState.gameOver || gameState.currentPiece == null {
        return false;
      }
      var (x, y) := gameState.GetPiecePosition();
      ok := board.IsValidPosition(gameState.currentPiece, x + dx, y + dy);
      if ok {
        gameState.SetPiecePosition(x + dx, y + dy);
      }
    }

    /** Rotates the current piece through the collision resolver, unless the
        level's rotation cap is reached; a rotation that succeeds in level
        mode is counted. */
    method RotatePiece() returns (ok: bool)
      requires Valid() && PiecesValid()
      modifies gameState`piecePosition, CurrentPieces()`rotation, CurrentPieces()`shape, Managers()`rotationCount
      ensures Valid() && PiecesValid()
      ensures (ok, Snap()) == Turned(old(Snap()), InLevelMode() && old(levelManager.CheckRuleViolation(ROTATE)))
      ensures levelManager != null ==>
                levelManager.rotationCount == old(levelManager.rotationCount) + if ok && InLevelMode() then 1 else 0
    {
      if gameState.paused || gameState.gameOver || gameState.currentPiece == null {
        return false;
      }
      if levelManager != null && gameState.gameMode == LEVEL_MODE && levelManager.CheckRuleViolation(ROTATE) {
        return false;
      }
      var piece := gameState.currentPiece;
      var (x, y) := gameState.GetPiecePosition();
      var p;
      ok, p := CanRotate(piece, board, x, y);
      StatesAreShapes(piece.kind, piece.rotation);
      if ok {
        gameState.SetPiecePosition(p.0, p.1);
        if levelManager != null && gameState.gameMode == LEVEL_MODE {
          levelManager.RecordRotation();
        }
      }
    }

    /** Places the current piece where it stands, if it fits there. */
    method StampPiece() returns (placed: bool)
      requires Valid() && gameState.currentPiece != null
      modifies board`grid
      ensures Valid()
      ensures placed == Placeable(old(Snap()))
      ensures Snap() == if placed then Stamped(old(Snap())) else old(Snap())
    {
      var p := gameState.currentPiece;
      var (x, y) := gameState.GetPiecePosition();
      placed := board.PlacePiece(p, x, y);
    }

    /** Clears the full rows and, when any were cleared, scores them and
        recomputes the level. */
    method ClearAndScore()
      requires Valid()
      modifies board`grid, gameState`score, gameState`linesCleared, gameState`level, gameState`dropDelay
      ensures Valid()
      ensures Snap() == Cleared(old(Snap()))
    {
      var n := board.ClearLines();
      ScoreRows(n);
    }

    /** Scores `n` cleared rows and recomputes the level, when there are any. */
    method ScoreRows(n: nat)
      modifies gameState`score, gameState`linesCleared, gameState`level, gameState`dropDelay
      ensures gameState.Tally() == AfterClear(old(gameState.Tally()), n)
    {
      if n > 0 {
        gameState.UpdateScore(n);
        gameState.UpdateLevel();
      }
    }

    /** Places the current piece where it stands; if that succeeds, clears
        the full rows and scores them. */
    method LockPiece() returns (placed: bool)
      requires Valid() && PiecesValid() && gameState.currentPiece != null
      modifies board`grid, gameState`score, gameState`linesCleared, gameState`level, gameState`dropDelay
      ensures Valid() && PiecesValid() && Allowed() == old(Allowed())
      ensures placed == Placeable(old(Snap()))
      ensures Snap() == Locked(old(Snap()))
    {
      placed := StampPiece();
      if placed {
        ClearAndScore();
      }
    }

    /** Flags the level as complete, with grade `stars`, in the session. */
    method FlagComplete(stars: int)
      modifies gameState`levelComplete, gameState`levelStars
      ensures Snap() == old(Snap()).(levelComplete := true, levelStars := stars)
    {
      gameState.levelComplete := true;
      gameState.levelStars := stars;
    }

    /** Grades the completed level `m`, records the completion and flags the
        level as complete in the session. */
    method FinishLevel(m: LevelManager, now: int) returns (stars: int)
      modifies gameState`levelComplete, gameState`levelStars, m`completedLevels, m`levelScores, m`levelStars
      ensures stars == old(m.Stars(gameState.linesCleared, gameState.score, m.TimeRemaining(now)))
      ensures Snap() == old(Snap()).(levelComplete := true, levelStars := stars)
      ensures m.Completed(gameState.score, stars)
    {
      var remaining := m.TimeRemaining(now);
      stars := m.CalculateStars(gameState.linesCleared, gameState.score, remaining);
      m.CompleteLevel(gameState.linesCleared, gameState.score, stars);
      FlagComplete(stars);
    }

    /** After a successful lock that left session `w`: completes the level
        when the manager says so, and otherwise spawns the next piece. */
    method Conclude(ghost w: Snapshot, now: int, k1: Kind, k2: Kind) returns (ghost done: bool, ghost stars: int)
      requires Valid() && PiecesValid() && k1 in Allowed() && k2 in Allowed() && Snap() == w
      modifies gameState`levelComplete, gameState`levelStars, gameState`currentPiece, gameState`nextPiece,
               gameState`piecePosition, gameState`gameOver,
               Managers()`completedLevels, Managers()`levelScores, Managers()`levelStars
      ensures Valid() && PiecesValid()
      ensures done == Completes(w, now) && stars == Earned(w, now)
      ensures Snap() == if done then w.(levelComplete := true, levelStars := stars) else Spawned(w, k1, k2)
      ensures levelManager != null ==>
                if done then levelManager.Completed(gameState.score, stars) else unchanged(levelManager)
    {
      done := Completes(w, now);
      stars := Earned(w, now);
      if levelManager != null && gameState.gameMode == LEVEL_MODE &&
         levelManager.CheckLevelComplete(gameState.linesCleared, gameState.score, now) {
        var _ := FinishLevel(levelManager, now);
      } else {
        SpawnNewPiece(k1, k2);
      }
    }

    /** Locks the current piece and then either completes the level or
        spawns the next piece; without a current piece nothing changes. */
    method PlaceCurrentPiece(now: int, k1: Kind, k2: Kind) returns (ghost locked: Snapshot, ghost done: bool, ghost stars: int)
      requires Valid() && PiecesValid() && k1 in Allowed() && k2 in Allowed()
      modifies board`grid, gameState`score, gameState`linesCleared, gameState`level, gameState`dropDelay,
               gameState`levelComplete, gameState`levelStars, gameState`currentPiece, gameState`nextPiece,
               gameState`piecePosition, gameState`gameOver,
               Managers()`completedLevels, Managers()`levelScores, Managers()`levelStars
      ensures Valid() && PiecesValid()
      ensures PlacedTo(old(Snap()), locked, done, stars, k1, k2, Snap())
      ensures Decided(old(Snap()), locked, now, done, stars)
      ensures levelManager != null ==>
                if done then levelManager.Completed(gameState.score, stars) else unchanged(levelManager)
    {
      locked, done, stars := Snap(), false, 0;
      if gameState.currentPiece != null {
        var placed := LockPiece();
        locked := Snap();
        if placed {
          done, stars := Conclude(locked, now, k1, k2);
        }
      }
    }

    /** One row down by the guarded move, or, when the move is refused for
        any reason, including a paused or finished game, the placement. */
    method DropPiece(now: int, k1: Kind, k2: Kind) returns (ghost locked: Snapshot, ghost done: bool, ghost stars: int)
      requires Valid() && PiecesValid() && k1 in Allowed() && k2 in Allowed()
      modifies board`grid, gameState`score, gameState`linesCleared, gameState`level, gameState`dropDelay,
               gameState`levelComplete, gameState`levelStars, gameState`currentPiece, gameState`nextPiece,
               gameState`piecePosition, gameState`gameOver,
               Managers()`completedLevels, Managers()`levelScores, Managers()`levelStars
      ensures Valid() && PiecesValid()
      ensures DroppedTo(old(Snap()), locked, done, stars, k1, k2, Snap())
      ensures !Shifted(old(Snap()), 0, 1).0 ==> Decided(old(Snap()), locked, now, done, stars)
      ensures levelManager != null && done ==> levelManager.Completed(gameState.score, stars)
      ensures levelManager != null && !done ==> unchanged(levelManager)
    {
      locked, done, stars := Snap(), false, 0;
      var ok := MovePiece(0, 1);
      if !ok {
        locked, done, stars := PlaceCurrentPiece(now, k1, k2);
      }
    }

    /** An automatic fall is due at `now`: running, and more than the level
        curve's delay for the current level since the last fall. */
    predicate FallDue(now: int)
      reads this`gameState, gameState`paused, gameState`gameOver, gameState`level, this`lastDropTime
    {
      !gameState.paused && !gameState.gameOver && now - lastDropTime > GameConfig.DropDelay(gameState.level)
    }

    /** One frame of the game loop at time `now`: nothing while paused or
        over; otherwise a drop, with the fall clock set to `now`, when the
        level curve's delay has passed. */
    method Update(now: int, k1: Kind, k2: Kind) returns (ghost locked: Snapshot, ghost done: bool, ghost stars: int)
      requires Valid() && PiecesValid() && k1 in Allowed() && k2 in Allowed()
      modifies this`lastDropTime, board`grid, gameState`score, gameState`linesCleared, gameState`level, gameState`dropDelay,
               gameState`levelComplete, gameState`levelStars, gameState`currentPiece, gameState`nextPiece,
               gameState`piecePosition, gameState`gameOver,
               Managers()`completedLevels, Managers()`levelScores, Managers()`levelStars
      ensures Valid() && PiecesValid()
      ensures old(FallDue(now)) ==>
                lastDropTime == now && DroppedTo(old(Snap()), locked, done, stars, k1, k2, Snap()) &&
                (!Shifted(old(Snap()), 0, 1).0 ==> Decided(old(Snap()), locked, now, done, stars))
      ensures !old(FallDue(now)) ==> Snap() == old(Snap()) && lastDropTime == old(lastDropTime) && !done
      ensures levelManager != null && done ==> levelManager.Completed(gameState.score, stars)
      ensures levelManager != null && !done ==> unchanged(levelManager)
    {
      locked, done, stars := Snap(), false, 0;
      if gameState.paused || gameState.gameOver {
        return;
      }
      if now - lastDropTime > GameConfig.DropDelay(gameState.level) {
        locked, done, stars := Fall(now, k1, k2);
      }
    }

    /** The fall: the fall clock set to `now`, then a drop. */
    method Fall(now: int, k1: Kind, k2: Kind) returns (ghost locked: Snapshot, ghost done: bool, ghost stars: int)
      requires Valid() && PiecesValid() && k1 in Allowed() && k2 in Allowed()
      modifies this`lastDropTime, board`grid, gameState`score, gameState`linesCleared, gameState`level, gameState`dropDelay,
               gameState`levelComplete, gameState`levelStars, gameState`currentPiece, gameState`nextPiece,
               gameState`piecePosition, gameState`gameOver,
               Managers()`completedLevels, Managers()`levelScores, Managers()`levelStars
      ensures Valid() && PiecesValid() && lastDropTime == now
      ensures DroppedTo(old(Snap()), locked, done, stars, k1, k2, Snap())
      ensures !Shifted(old(Snap()), 0, 1).0 ==> Decided(old(Snap()), locked, now, done, stars)
      ensures levelManager != null && done ==> levelManager.Completed(gameState.score, stars)
      ensures levelManager != null && !done ==> unchanged(levelManager)
    {
      lastDropTime := now;
      locked, done, stars := DropPiece(now, k1, k2);
    }

    /** A new game: a new empty board and a new session (classic mode), the
        fall clock restarted at `now`, and a first piece spawned; the level
        manager is kept. */
    method ResetGame(now: int, k1: Kind, k2: Kind)
      requires Valid()
      modifies this`board, this`gameState, this`lastDropTime
      ensures Valid() && PiecesValid() && fresh(board) && fresh(gameState)
      ensures Snap() == Spawned(Initial(), k1, k2) && lastDropTime == now
    {
      board := new Board(GameConfig.BOARD_WIDTH, GameConfig.BOARD_HEIGHT);
      gameState := new GameState();
      lastDropTime := now;
      EveryKindListed(k1);
      EveryKindListed(k2);
      SpawnNewPiece(k1, k2);
    }
  }
}
