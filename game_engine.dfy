/**
 * The modular engine (src/core/game_engine.py): it spawns pieces, moves and
 * rotates them on the board, locks a piece that cannot fall, clears rows,
 * scores, checks level completion and spawns again.
 *
 * Each operation is specified by a function on `Snapshot`, the value of
 * everything the session shows (grid, counters, current and reserve piece,
 * position, flags): a method guarantees that the snapshot afterwards is that
 * function of the snapshot before. The wall clock becomes an integer
 * millisecond parameter `now`; the kinds drawn at random become parameters
 * `k1` (the reserve when there is none) and `k2` (the new reserve), required
 * to be among the allowed kinds.
 */
module Engines {
  import opened Wrappers
  import opened Shapes
  import opened Pieces
  import opened Boards
  import opened Collision
  import GameConfig
  import opened GameStates
  import opened LevelManagers

  /** The column where a piece `w` cells wide enters, centred on the board. */
  function SpawnColumn(w: int): int
  {
    GameConfig.BOARD_WIDTH as int / 2 - w / 2
  }

  /** Every state enters an empty board at its spawn column without touching
      a wall, so a new game never starts over. */
  lemma SpawnFitsEmptyBoard(k: Kind, r: nat)
    requires r < StateCount(k)
    ensures var s := States(k)[r];
            IsShape(s) && Fits(EmptyRows(20, 10), 10, 20, s, SpawnColumn(|s[0]|), 0)
  {
    StatesAreShapes(k, r);
  }

  /** When the top row is full, no state fits at row 0, wherever it enters. */
  lemma FullTopRowBlocksSpawn(g: Grid, k: Kind, r: nat, x: int)
    requires WellFormed(g, 10, 20) && r < StateCount(k)
    requires forall j :: 0 <= j < 10 ==> g[0][j] != None
    ensures IsShape(States(k)[r]) && !Fits(g, 10, 20, States(k)[r], x, 0)
  {
    StatesAreShapes(k, r);
    StatesTopRowOccupied(k, r);
    var s := States(k)[r];
    var c :| 0 <= c < |s[0]| && s[0][c];
    assert Blocked(g, 10, 20, x + c, 0);
  }

  /** The counters after a lock that cleared `n` rows: nothing changes when
      no row was cleared; otherwise the points for `n` rows at the current
      level are added, the rows are counted, the level is recomputed, and the
      fall delay follows the level only when the level changes. */
  function AfterClear(c: Counters, n: nat): Counters
  {
    if n == 0 then c
    else
      var lines := c.lines + n;
      var level := GameConfig.Level(lines);
      Counters(c.score + GameConfig.Score(n, c.level), lines, level,
               if level != c.level then GameConfig.DropDelay(level) else c.dropDelay)
  }

  /** Level and fall delay agree with the rows cleared. */
  predicate Agree(c: Counters)
  {
    c.lines >= 0 && c.level == GameConfig.Level(c.lines) && c.dropDelay == GameConfig.DropDelay(c.level)
  }

  /** Counters whose level and delay agree with the rows keep agreeing after
      any clear; the score and the rows never go down and the level never
      falls. */
  lemma AfterClearKeepsConsistent(c: Counters, n: nat)
    requires Agree(c)
    ensures var d := AfterClear(c, n);
            Agree(d) && d.lines == c.lines + n && d.score >= c.score && d.level >= c.level
  {
    if n > 0 {
      GameConfig.LevelMonotone(c.lines, c.lines + n);
    }
  }

  /** Everything the session shows: the grid, the counters, the current and
      the reserve piece, the current piece's position, and the flags. */
  datatype Snapshot = Snapshot(grid: Grid, tally: Counters, current: Option<PieceView>, next: Option<PieceView>,
                               pos: (int, int), gameOver: bool, paused: bool, mode: string,
                               levelComplete: bool, levelFailed: bool, levelStars: int)

  /** The session of a new engine: an empty board, no pieces, classic mode. */
  function Initial(): Snapshot
  {
    Snapshot(EmptyRows(20, 10), Counters(0, 0, 1, 1000), None, None, (0, 0),
             false, false, CLASSIC, false, false, 0)
  }

  /** A 10 x 20 grid and rectangular pieces. */
  predicate SnapOk(v: Snapshot)
  {
    WellFormed(v.grid, 10, 20) &&
    (v.current.Some? ==> IsShape(v.current.value.shape)) &&
    (v.next.Some? ==> IsShape(v.next.value.shape))
  }

  /** Both pieces, where present, are states of their kind's table. */
  predicate PiecesInTable(v: Snapshot)
  {
    (v.current.Some? ==> InTable(v.current.value)) && (v.next.Some? ==> InTable(v.next.value))
  }

  /** Moves and rotations are accepted only while this holds. */
  predicate Running(v: Snapshot)
  {
    !v.paused && !v.gameOver && v.current.Some?
  }

  /** The current piece fits when shifted by (dx, dy). */
  predicate FitsAt(v: Snapshot, dx: int, dy: int)
    requires SnapOk(v) && v.current.Some?
  {
    Fits(v.grid, 10, 20, v.current.value.shape, v.pos.0 + dx, v.pos.1 + dy)
  }

  /** There is a current piece and it fits where it stands. */
  predicate Placeable(v: Snapshot)
    requires SnapOk(v)
  {
    v.current.Some? && FitsAt(v, 0, 0)
  }

  /** The current piece, if any, fits where it stands, unless the game is over. */
  predicate Settled(v: Snapshot)
    requires SnapOk(v)
  {
    v.current.Some? && !v.gameOver ==> FitsAt(v, 0, 0)
  }

  /** A move by (dx, dy): accepted, and the piece shifted, exactly when the
      game is running and the piece fits there; otherwise nothing changes. */
  function Shifted(v: Snapshot, dx: int, dy: int): (r: (bool, Snapshot))
    requires SnapOk(v)
    ensures SnapOk(r.1) && (PiecesInTable(v) ==> PiecesInTable(r.1))
  {
    if Running(v) && FitsAt(v, dx, dy) then (true, v.(pos := (v.pos.0 + dx, v.pos.1 + dy)))
    else (false, v)
  }

  /** A rotation: refused, with nothing changed, when the game is not running
      or the level forbids it; otherwise the piece advances to its next state
      at the collision resolver's target, when there is one. */
  function Turned(v: Snapshot, banned: bool): (r: (bool, Snapshot))
    requires SnapOk(v) && PiecesInTable(v)
    ensures SnapOk(r.1) && PiecesInTable(r.1)
  {
    if !Running(v) || banned then (false, v)
    else
      var p := v.current.value;
      NextRotationCycles(p.kind, p.rotation);
      TurnedTo(v, RotatedShape(p.kind, p.rotation), NextRotation(p.kind, p.rotation), KICK_OFFSETS)
  }

  /** The current piece takes shape `s` at rotation index `rot`, in place or
      at the kick target over the offsets `offs`, when `s` fits at one of
      them; otherwise nothing changes. */
  function TurnedTo(v: Snapshot, s: Shape, rot: nat, offs: seq<Offset>): (r: (bool, Snapshot))
    requires SnapOk(v) && v.current.Some? && IsShape(s)
    ensures SnapOk(r.1)
    ensures r.0 ==> r.1 == v.(current := Some(v.current.value.(rotation := rot, shape := s)), pos := r.1.pos) &&
                    FitsAt(r.1, 0, 0)
    ensures !r.0 ==> r.1 == v
  {
    var t := RotationTarget(v.grid, 10, 20, s, v.pos.0, v.pos.1, offs);
    if t.None? then (false, v)
    else (true, v.(current := Some(v.current.value.(rotation := rot, shape := s)), pos := t.value))
  }

  /** Without a reserve, a new piece of kind `k1` becomes the reserve. */
  function Reserved(v: Snapshot, k1: Kind): (r: Snapshot)
    requires SnapOk(v)
    ensures SnapOk(r) && r.next.Some? && (PiecesInTable(v) ==> PiecesInTable(r))
  {
    if v.next.Some? then v else v.(next := Some(Entered(k1)))
  }

  /** The reserve becomes current and a new piece of kind `k2` the reserve. */
  function Promoted(v: Snapshot, k2: Kind): (r: Snapshot)
    requires SnapOk(v) && v.next.Some?
    ensures SnapOk(r) && r.current.Some? && (PiecesInTable(v) ==> PiecesInTable(r))
  {
    v.(current := v.next, next := Some(Entered(k2)))
  }

  /** The pieces after a draw: the reserve (or, without one, a new piece of
      kind `k1`) becomes current and a new piece of kind `k2` the reserve. */
  function Drawn(v: Snapshot, k1: Kind, k2: Kind): (r: Snapshot)
    requires SnapOk(v)
    ensures SnapOk(r) && r.current.Some? && (PiecesInTable(v) ==> PiecesInTable(r))
  {
    Promoted(Reserved(v, k1), k2)
  }

  /** The current piece enters at its spawn column on row 0, and the game is
      over if it was or if the piece does not fit there. */
  function Entering(v: Snapshot): (r: Snapshot)
    requires SnapOk(v) && v.current.Some?
    ensures SnapOk(r)
  {
    var x := SpawnColumn(|v.current.value.shape[0]|);
    v.(pos := (x, 0), gameOver := v.gameOver || !Fits(v.grid, 10, 20, v.current.value.shape, x, 0))
  }

  /** A spawn: a draw, then the new current piece enters. */
  function Spawned(v: Snapshot, k1: Kind, k2: Kind): (r: Snapshot)
    requires SnapOk(v)
    ensures SnapOk(r) && (PiecesInTable(v) ==> PiecesInTable(r))
  {
    Entering(Drawn(v, k1, k2))
  }

  /** The current piece's blocks written into the grid where it stands. */
  function Stamped(v: Snapshot): (r: Snapshot)
    requires SnapOk(v) && Placeable(v)
    ensures SnapOk(r)
  {
    var p := v.current.value;
    StampWritesShape(v.grid, 10, 20, p.shape, v.pos.0, v.pos.1, p.color);
    v.(grid := Stamp(v.grid, p.shape, v.pos.0, v.pos.1, p.color))
  }

  /** The full rows cleared and the counters updated for them. */
  function Cleared(v: Snapshot): (r: Snapshot)
    requires SnapOk(v)
    ensures SnapOk(r)
  {
    CompactedShape(v.grid, 10, 20);
    v.(grid := Compacted(v.grid, 10), tally := AfterClear(v.tally, FullCount(v.grid)))
  }

  /** A lock: when the current piece fits where it stands, its blocks are
      written into the grid, the full rows are cleared and the counters are
      updated for them; otherwise nothing changes. */
  function Locked(v: Snapshot): (r: Snapshot)
    requires SnapOk(v)
    ensures SnapOk(r) && r.current == v.current && r.next == v.next
  {
    if !Placeable(v) then v else Cleared(Stamped(v))
  }

  /** An automatic fall is due: the game is neither paused nor over, there
      is a current piece, the mode is one of the two game modes, and more
      than the fall delay has passed since the last fall at `last`. */
  predicate Due(v: Snapshot, now: int, last: int)
  {
    !v.paused && !v.gameOver && v.current.Some? && (v.mode == CLASSIC || v.mode == LEVEL_MODE) &&
    now - last > v.tally.dropDelay
  }

  /** `r` is the session after placing the current piece of `v`: with
      `locked` the session after the lock, nothing changes when the lock
      fails; otherwise the level is recorded as complete with grade `stars`
      when `done`, and the next piece spawns when not. */
  predicate PlacedTo(v: Snapshot, locked: Snapshot, done: bool, stars: int, k1: Kind, k2: Kind, r: Snapshot)
    requires SnapOk(v)
  {
    locked == Locked(v) &&
    r == if !Placeable(v) then v
         else if done then locked.(levelComplete := true, levelStars := stars)
         else Spawned(locked, k1, k2)
  }

  /** `r` is the session after an automatic fall of the current piece of `v`:
      one row down when it fits there (and no level is completed), otherwise
      the piece is placed as `PlacedTo` says. */
  predicate FellTo(v: Snapshot, locked: Snapshot, done: bool, stars: int, k1: Kind, k2: Kind, r: Snapshot)
    requires SnapOk(v) && v.current.Some?
  {
    if FitsAt(v, 0, 1) then r == Shifted(v, 0, 1).1 && !done
    else PlacedTo(v, locked, done, stars, k1, k2, r)
  }

  /** A piece that entered is settled: either it fits or the game is over. */
  lemma SpawnedSettles(v: Snapshot, k1: Kind, k2: Kind)
    requires SnapOk(v)
    ensures var r := Spawned(v, k1, k2);
            Settled(r) && r.current.Some? && (r.gameOver <==> v.gameOver || !FitsAt(r, 0, 0))
  {
  }

  /** A new game never spawns into a loss. */
  lemma FreshGameRuns(k1: Kind, k2: Kind)
    ensures var r := Spawned(Initial(), k1, k2);
            Running(r) && Settled(r) && r.tally == Counters(0, 0, 1, 1000) && r.current == Some(Entered(k1))
  {
    SpawnFitsEmptyBoard(k1, 0);
  }

  /** With the top row full, every spawn ends the game. */
  lemma FullTopRowEndsGame(v: Snapshot, k1: Kind, k2: Kind)
    requires SnapOk(v) && PiecesInTable(v)
    requires forall j :: 0 <= j < 10 ==> v.grid[0][j] != None
    ensures Spawned(v, k1, k2).gameOver
  {
    var p := if v.next.Some? then v.next.value else Entered(k1);
    FullTopRowBlocksSpawn(v.grid, p.kind, p.rotation, SpawnColumn(|p.shape[0]|));
  }

  /** Moves keep a settled piece settled. */
  lemma ShiftedKeepsSettled(v: Snapshot, dx: int, dy: int)
    requires SnapOk(v) && Settled(v)
    ensures Settled(Shifted(v, dx, dy).1)
  {
  }

  /** An accepted move is undone by the opposite move, which is accepted too. */
  lemma ShiftedUndo(v: Snapshot, dx: int, dy: int)
    requires SnapOk(v) && Settled(v) && Shifted(v, dx, dy).0
    ensures Shifted(Shifted(v, dx, dy).1, -dx, -dy) == (true, v)
  {
    var w := Shifted(v, dx, dy).1;
    assert w.pos.0 + -dx == v.pos.0 && w.pos.1 + -dy == v.pos.1;
    assert v.(pos := (v.pos.0, v.pos.1)) == v;
  }

  /** A running, settled piece can always stay where it is. */
  lemma ShiftedByNothing(v: Snapshot)
    requires SnapOk(v) && Settled(v) && Running(v)
    ensures Shifted(v, 0, 0) == (true, v)
  {
    assert v.(pos := (v.pos.0 + 0, v.pos.1 + 0)) == v;
  }

  /** Rotations keep a settled piece settled. */
  lemma TurnedKeepsSettled(v: Snapshot, banned: bool)
    requires SnapOk(v) && PiecesInTable(v) && Settled(v)
    ensures Settled(Turned(v, banned).1)
  {
  }

  /** A rotation of a running piece that the level allows is refused exactly
      when the rotated state fits neither in place nor at any kick offset;
      an accepted one advances the rotation index. */
  lemma TurnedIff(v: Snapshot, banned: bool)
    requires SnapOk(v) && PiecesInTable(v) && Running(v) && !banned
    ensures var p := v.current.value;
            var s := RotatedShape(p.kind, p.rotation);
            var (ok, w) := Turned(v, banned);
            (!ok <==> !Fits(v.grid, 10, 20, s, v.pos.0, v.pos.1) &&
                      forall j :: 0 <= j < |KICK_OFFSETS| ==>
                        !Fits(v.grid, 10, 20, s, v.pos.0 + KICK_OFFSETS[j].0, v.pos.1 + KICK_OFFSETS[j].1)) &&
            (ok ==> w.current.value.rotation == NextRotation(p.kind, p.rotation) && Settled(w))
  {
    var p := v.current.value;
    NextRotationCycles(p.kind, p.rotation);
    var (s, rot) := (RotatedShape(p.kind, p.rotation), NextRotation(p.kind, p.rotation));
    var (ok, w) := TurnedTo(v, s, rot, KICK_OFFSETS);
    assert Turned(v, banned) == (ok, w);
    assert ok ==> w.current.value.rotation == rot && FitsAt(w, 0, 0);
    TurnedToIff(v, s, rot, KICK_OFFSETS);
  }

  /** Taking a shape is refused exactly when it fits neither in place nor at
      any kick offset. */
  lemma TurnedToIff(v: Snapshot, s: Shape, rot: nat, offs: seq<Offset>)
    requires SnapOk(v) && v.current.Some? && IsShape(s)
    ensures !TurnedTo(v, s, rot, offs).0 <==>
              (!Fits(v.grid, 10, 20, s, v.pos.0, v.pos.1) &&
               forall j :: 0 <= j < |offs| ==> !Fits(v.grid, 10, 20, s, v.pos.0 + offs[j].0, v.pos.1 + offs[j].1))
  {
    RotationRefusedIff(v.grid, 10, 20, s, v.pos.0, v.pos.1, offs);
  }

  /** A lock keeps the counters in agreement, never lowers the score, adds
      exactly the full rows it cleared, and leaves no full row behind. */
  lemma LockedClears(v: Snapshot)
    requires SnapOk(v) && Agree(v.tally) && Placeable(v)
    ensures var p := v.current.value;
            var g := Stamp(v.grid, p.shape, v.pos.0, v.pos.1, p.color);
            var w := Locked(v);
            Agree(w.tally) && w.tally.score >= v.tally.score &&
            w.tally.lines == v.tally.lines + FullCount(g) && FullCount(w.grid) == 0
  {
    var g := Stamped(v).grid;
    AfterClearKeepsConsistent(v.tally, FullCount(g));
    ClearIdempotent(g, 10, 20);
  }

  /** A placement changes nothing when the lock fails; after one that does
      not finish the level the new piece is settled; a finished level keeps
      the pieces where they were and records the grade. */
  lemma PlacedToSettles(v: Snapshot, locked: Snapshot, done: bool, stars: int, k1: Kind, k2: Kind, r: Snapshot)
    requires SnapOk(v) && PlacedTo(v, locked, done, stars, k1, k2, r)
    ensures !Placeable(v) ==> r == v
    ensures Placeable(v) && !done ==> SnapOk(r) && Settled(r) && r.current.Some?
    ensures Placeable(v) && done ==>
              r.current == v.current && r.next == v.next && r.pos == v.pos && r.levelComplete && r.levelStars == stars
  {
  }

  /** An automatic fall that does not finish the level leaves a settled
      piece settled. */
  lemma FellToKeepsSettled(v: Snapshot, locked: Snapshot, done: bool, stars: int, k1: Kind, k2: Kind, r: Snapshot)
    requires SnapOk(v) && v.current.Some? && Settled(v) && FellTo(v, locked, done, stars, k1, k2, r) && !done
    ensures SnapOk(r) && Settled(r)
  {
    if !FitsAt(v, 0, 1) {
      PlacedToSettles(v, locked, done, stars, k1, k2, r);
    }
  }

  class GameEngine {
    var board: Board
    const gameState: GameState
    var lastDropTime: int
    /** Injected from outside after construction; absent by default. */
    var levelManager: LevelManager?

    /** The board is 10 x 20 and well formed, the pieces have rectangular
        shapes and are distinct objects, and a level time limit comes with a
        start time. */
    ghost predicate Valid()
      reads this`board, this`levelManager, board, gameState`currentPiece, gameState`nextPiece,
            gameState.currentPiece, gameState.nextPiece, Managers()`timeLimit, Managers()`startTime
    {
      BoardOk() && ClockOk() && Shaped()
    }

    /** The board is 10 x 20 and well formed. */
    ghost predicate BoardOk()
      reads this`board, board
    {
      board.Valid() && board.width == 10 && board.height == 20
    }

    /** A level time limit comes with a start time. */
    predicate ClockOk()
      reads this`levelManager, Managers()`timeLimit, Managers()`startTime
    {
      levelManager != null ==> levelManager.Started()
    }

    /** The pieces. */
    ghost predicate Shaped()
      reads gameState`currentPiece, gameState`nextPiece, gameState.currentPiece, gameState.nextPiece
    {
      (gameState.currentPiece != null ==> IsShape(gameState.currentPiece.shape) &&
                                          gameState.currentPiece != gameState.nextPiece) &&
      (gameState.nextPiece != null ==> IsShape(gameState.nextPiece.shape))
    }

    /** The current and the reserve piece are states of their kind's table. */
    ghost predicate PiecesValid()
      reads gameState`currentPiece, gameState`nextPiece, gameState.currentPiece, gameState.nextPiece
    {
      (gameState.currentPiece != null ==> gameState.currentPiece.Valid()) &&
      (gameState.nextPiece != null ==> gameState.nextPiece.Valid())
    }

    /** The session as a value. */
    function Snap(): Snapshot
      reads this`board, board`grid, gameState, gameState.currentPiece, gameState.nextPiece
    {
      var gs := gameState;
      Snapshot(board.grid, gs.Tally(),
               if gs.currentPiece == null then None else Some(gs.currentPiece.View()),
               if gs.nextPiece == null then None else Some(gs.nextPiece.View()),
               gs.piecePosition, gs.gameOver, gs.paused, gs.gameMode,
               gs.levelComplete, gs.levelFailed, gs.levelStars)
    }

    /** The level rules apply only with a level manager in level mode. */
    predicate InLevelMode()
      reads this`levelManager, gameState`gameMode
    {
      levelManager != null && gameState.gameMode == LEVEL_MODE
    }

    /** The kinds a new piece may be drawn from. */
    function Allowed(): seq<Kind>
      reads this`levelManager, gameState`gameMode, Managers()`currentLevelConfig
    {
      if InLevelMode() then levelManager.AvailablePieceTypes() else ALL_KINDS
    }

    /** Session `w`, just after a lock, completes the level at time `now`:
        there is a level manager, the mode is level mode and the manager
        finds the level's goal reached. */
    predicate Completes(w: Snapshot, now: int)
      reads this`levelManager, Managers()`currentLevelConfig, Managers()`timeLimit, Managers()`startTime
    {
      levelManager != null && w.mode == LEVEL_MODE &&
      levelManager.CheckLevelComplete(w.tally.lines, w.tally.score, now)
    }

    /** The grade such a completion earns: the manager's stars for the rows,
        the score and the time left; zero when the level is not completed. */
    function Earned(w: Snapshot, now: int): int
      reads this`levelManager, Managers()`currentLevelConfig, Managers()`timeLimit, Managers()`startTime
    {
      if !Completes(w, now) then 0
      else levelManager.Stars(w.tally.lines, w.tally.score, levelManager.TimeRemaining(now))
    }

    /** The level outcome of a placement from `v` that locked as `locked`:
        the level is completed exactly when the lock succeeded and the
        manager finds the goal reached, and the grade is then `Earned`. */
    predicate Decided(v: Snapshot, locked: Snapshot, now: int, done: bool, stars: int)
      reads this`levelManager, Managers()`currentLevelConfig, Managers()`timeLimit, Managers()`startTime
      requires SnapOk(v)
    {
      done == (Placeable(v) && Completes(locked, now)) && stars == (if done then Earned(locked, now) else 0)
    }

    /** The level's time is up: the game is neither paused nor over, and a
        level manager in level mode reports the time as up. */
    predicate TimedOut(v: Snapshot, now: int)
      reads this`levelManager, Managers()`timeLimit, Managers()`startTime
    {
      !v.paused && !v.gameOver && levelManager != null && v.mode == LEVEL_MODE &&
      levelManager.Started() && levelManager.IsTimeUp(now)
    }

    function CurrentPieces(): set<Piece>
      reads gameState`currentPiece
    {
      if gameState.currentPiece == null then {} else {gameState.currentPiece}
    }

    function Managers(): set<LevelManager>
      reads this`levelManager
    {
      if levelManager == null then {} else {levelManager}
    }

    constructor (now: int)
      ensures Valid() && PiecesValid() && fresh(board) && fresh(gameState)
      ensures Snap() == Initial() && gameState.IsInitial()
      ensures lastDropTime == now && levelManager == null
    {
      board := new Board(GameConfig.BOARD_WIDTH, GameConfig.BOARD_HEIGHT);
      gameState := new GameState();
      lastDropTime := now;
      levelManager := null;
    }

    /** Draws a reserve of kind `k1` when there is none. */
    method Reserve(k1: Kind)
      requires Valid() && PiecesValid()
      modifies gameState`nextPiece
      ensures Valid() && PiecesValid() && gameState.nextPiece != null
      ensures Snap() == Reserved(old(Snap()), k1)
    {
      if gameState.nextPiece == null {
        gameState.nextPiece := new Piece(k1);
        StatesAreShapes(k1, 0);
      }
    }

    /** Promotes the reserve and draws a new one of kind `k2`. */
    method Promote(k2: Kind)
      requires Valid() && PiecesValid() && gameState.nextPiece != null
      modifies gameState`currentPiece, gameState`nextPiece
      ensures Valid() && PiecesValid() && gameState.currentPiece != null && fresh(gameState.nextPiece)
      ensures Snap() == Promoted(old(Snap()), k2)
    {
      gameState.currentPiece := gameState.nextPiece;
      gameState.nextPiece := new Piece(k2);
      StatesAreShapes(k2, 0);
    }

    /** Puts the current piece at its spawn column on row 0 and ends the game
        if it does not fit there. */
    method Enter()
      requires Valid() && PiecesValid() && gameState.currentPiece != null
      modifies gameState`piecePosition, gameState`gameOver
      ensures Snap() == Entering(old(Snap()))
    {
      var piece := gameState.currentPiece;
      StatesAreShapes(piece.kind, piece.rotation);
      var x := SpawnColumn(piece.Width());
      gameState.SetPiecePosition(x, 0);
      var ok := board.IsValidPosition(piece, x, 0);
      if !ok {
        gameState.gameOver := true;
      }
    }

    /** Promotes the reserve, draws a new one, puts the current piece at its
        spawn column on row 0, and ends the game if it does not fit there. */
    method SpawnNewPiece(k1: Kind, k2: Kind)
      requires Valid() && PiecesValid() && k1 in Allowed() && k2 in Allowed()
      modifies gameState`currentPiece, gameState`nextPiece, gameState`piecePosition, gameState`gameOver
      ensures Valid() && PiecesValid() && fresh(gameState.nextPiece)
      ensures Snap() == Spawned(old(Snap()), k1, k2)
    {
      Reserve(k1);
      Promote(k2);
      Enter();
    }

    /** Shifts the current piece by (dx, dy) when the game is running and the
        shifted position is valid. */
    method HandlePieceMovement(dx: int, dy: int) returns (ok: bool)
      requires Valid()
      modifies gameState`piecePosition
      ensures Valid()
      ensures (ok, Snap()) == Shifted(old(Snap()), dx, dy)
    {
      if gameState.paused || gameState.gameOver || gameState.currentPiece == null {
        return false;
      }
      var (x, y) := gameState.GetPiecePosition();
      ok := board.IsValidPosition(gameState.currentPiece, x + dx, y + dy);
      if ok {
        gameState.SetPiecePosition(x + dx, y + dy);
      }
    }

    /** Rotates the current piece through the collision resolver, unless the
        level's rotation cap is reached; a rotation that succeeds in level
        mode is counted. */
    method HandlePieceRotation() returns (ok: bool)
      requires Valid() && PiecesValid()
      modifies gameState`piecePosition, CurrentPieces()`rotation, CurrentPieces()`shape, Managers()`rotationCount
      ensures Valid() && PiecesValid()
      ensures (ok, Snap()) == Turned(old(Snap()), InLevelMode() && old(levelManager.CheckRuleViolation(ROTATE)))
      ensures levelManager != null ==>
                levelManager.rotationCount == old(levelManager.rotationCount) + if ok && InLevelMode() then 1 else 0
    {
      if gameState.paused || gameState.gameOver || gameState.currentPiece == null {
        return false;
      }
      if levelManager != null && gameState.gameMode == LEVEL_MODE && levelManager.CheckRuleViolation(ROTATE) {
        return false;
      }
      var piece := gameState.currentPiece;
      var (x, y) := gameState.GetPiecePosition();
      var p;
      ok, p := CanRotate(piece, board, x, y);
      StatesAreShapes(piece.kind, piece.rotation);
      if ok {
        gameState.SetPiecePosition(p.0, p.1);
        if levelManager != null && gameState.gameMode == LEVEL_MODE {
          levelManager.RecordRotation();
        }
      }
    }

    /** One row down, by the guarded move. */
    method DropPiece() returns (ok: bool)
      requires Valid()
      modifies gameState`piecePosition
      ensures Valid() && (old(PiecesValid()) ==> PiecesValid()) && Allowed() == old(Allowed())
      ensures (ok, Snap()) == Shifted(old(Snap()), 0, 1)
    {
      if gameState.paused || gameState.gameOver {
        return false;
      }
      ok := HandlePieceMovement(0, 1);
    }

    /** Places the current piece where it stands, if it fits there. */
    method StampPiece() returns (placed: bool)
      requires Valid() && gameState.currentPiece != null
      modifies board`grid
      ensures Valid()
      ensures placed == Placeable(old(Snap()))
      ensures Snap() == if placed then Stamped(old(Snap())) else old(Snap())
    {
      var p := gameState.currentPiece;
      var (x, y) := gameState.GetPiecePosition();
      placed := board.PlacePiece(p, x, y);
    }

    /** Clears the full rows and, when any were cleared, scores them and
        recomputes the level. */
    method ClearAndScore()
      requires Valid()
      modifies board`grid, gameState`score, gameState`linesCleared, gameState`level, gameState`dropDelay
      ensures Valid()
      ensures Snap() == Cleared(old(Snap()))
    {
      var n := board.ClearLines();
      ScoreRows(n);
    }

    /** Scores `n` cleared rows and recomputes the level, when there are any. */
    method ScoreRows(n: nat)
      modifies gameState`score, gameState`linesCleared, gameState`level, gameState`dropDelay
      ensures gameState.Tally() == AfterClear(old(gameState.Tally()), n)
    {
      if n > 0 {
        gameState.UpdateScore(n);
        gameState.UpdateLevel();
      }
    }

    /** Places the current piece where it stands; if that succeeds, clears
        the full rows and, when any were cleared, scores them and recomputes
        the level. */
    method LockPiece() returns (placed: bool)
      requires Valid() && PiecesValid() && gameState.currentPiece != null
      modifies board`grid, gameState`score, gameState`linesCleared, gameState`level, gameState`dropDelay
      ensures Valid() && PiecesValid() && Allowed() == old(Allowed())
      ensures placed == Placeable(old(Snap()))
      ensures Snap() == Locked(old(Snap()))
    {
      placed := StampPiece();
      if placed {
        ClearAndScore();
      }
    }

    /** Flags the level as complete, with grade `stars`, in the session. */
    method FlagComplete(stars: int)
      modifies gameState`levelComplete, gameState`levelStars
      ensures Snap() == old(Snap()).(levelComplete := true, levelStars := stars)
    {
      gameState.levelComplete := true;
      gameState.levelStars := stars;
    }

    /** Grades the completed level `m`, records the completion and flags the
        level as complete in the session. */
    method FinishLevel(m: LevelManager, now: int) returns (stars: int)
      modifies gameState`levelComplete, gameState`levelStars, m`completedLevels, m`levelScores, m`levelStars
      ensures stars == old(m.Stars(gameState.linesCleared, gameState.score, m.TimeRemaining(now)))
      ensures Snap() == old(Snap()).(levelComplete := true, levelStars := stars)
      ensures m.Completed(gameState.score, stars)
    {
      var remaining := m.TimeRemaining(now);
      stars := m.CalculateStars(gameState.linesCleared, gameState.score, remaining);
      m.CompleteLevel(gameState.linesCleared, gameState.score, stars);
      FlagComplete(stars);
    }

    /** After a successful lock that left session `w`: completes the level
        when the manager says so, and otherwise spawns the next piece. */
    method Conclude(ghost w: Snapshot, now: int, k1: Kind, k2: Kind) returns (ghost done: bool, ghost stars: int)
      requires Valid() && PiecesValid() && k1 in Allowed() && k2 in Allowed() && Snap() == w
      modifies gameState`levelComplete, gameState`levelStars, gameState`currentPiece, gameState`nextPiece,
               gameState`piecePosition, gameState`gameOver,
               Managers()`completedLevels, Managers()`levelScores, Managers()`levelStars
      ensures Valid() && PiecesValid()
      ensures done == Completes(w, now) && stars == Earned(w, now)
      ensures Snap() == if done then w.(levelComplete := true, levelStars := stars) else Spawned(w, k1, k2)
      ensures levelManager != null ==>
                if done then levelManager.Completed(gameState.score, stars) else unchanged(levelManager)
    {
      done := Completes(w, now);
      stars := Earned(w, now);
      if levelManager != null && gameState.gameMode == LEVEL_MODE &&
         levelManager.CheckLevelComplete(gameState.linesCleared, gameState.score, now) {
        var _ := FinishLevel(levelManager, now);
      } else {
        SpawnNewPiece(k1, k2);
      }
    }

    /** Locks the current piece and then either completes the level or
        spawns the next piece; without a current piece nothing changes. */
    method PlaceCurrentPiece(now: int, k1: Kind, k2: Kind) returns (ghost locked: Snapshot, ghost done: bool, ghost stars: int)
      requires Valid() && PiecesValid() && k1 in Allowed() && k2 in Allowed()
      modifies board`grid, gameState`score, gameState`linesCleared, gameState`level, gameState`dropDelay,
               gameState`levelComplete, gameState`levelStars, gameState`currentPiece, gameState`nextPiece,
               gameState`piecePosition, gameState`gameOver,
               Managers()`completedLevels, Managers()`levelScores, Managers()`levelStars
      ensures Valid() && PiecesValid()
      ensures PlacedTo(old(Snap()), locked, done, stars, k1, k2, Snap())
      ensures Decided(old(Snap()), locked, now, done, stars)
      ensures levelManager != null ==>
                if done then levelManager.Completed(gameState.score, stars) else unchanged(levelManager)
    {
      locked, done, stars := Snap(), false, 0;
      if gameState.currentPiece != null {
        var placed := LockPiece();
        locked := Snap();
        if placed {
          done, stars := Conclude(locked, now, k1, k2);
        }
      }
    }

    /** The automatic fall: one row down, or, when the piece cannot fall, the
        lock and what follows it; either way the fall time becomes `now`. */
    method Fall(now: int, k1: Kind, k2: Kind) returns (ghost locked: Snapshot, ghost done: bool, ghost stars: int)
      requires Valid() && PiecesValid() && k1 in Allowed() && k2 in Allowed() && Running(Snap())
      modifies this`lastDropTime, board`grid, gameState`score, gameState`linesCleared, gameState`level, gameState`dropDelay,
               gameState`levelComplete, gameState`levelStars, gameState`currentPiece, gameState`nextPiece,
               gameState`piecePosition, gameState`gameOver,
               Managers()`completedLevels, Managers()`levelScores, Managers()`levelStars
      ensures Valid() && PiecesValid() && lastDropTime == now
      ensures FellTo(old(Snap()), locked, done, stars, k1, k2, Snap())
      ensures !FitsAt(old(Snap()), 0, 1) ==> Decided(old(Snap()), locked, now, done, stars)
      ensures levelManager != null && done ==> levelManager.Completed(gameState.score, stars)
      ensures levelManager != null && !done ==> unchanged(levelManager)
    {
      lastDropTime := now;
      locked, done, stars := Snap(), false, 0;
      var ok := DropPiece();
      if !ok {
        locked, done, stars := PlaceCurrentPiece(now, k1, k2);
      }
    }

    /** One frame of the game loop at time `now`: nothing while paused or
        over; a level whose time is up is failed; otherwise, with a current
        piece in one of the game modes, the piece falls when the fall delay
        has passed. */
    method Update(now: int, k1: Kind, k2: Kind) returns (ghost locked: Snapshot, ghost done: bool, ghost stars: int)
      requires Valid() && PiecesValid() && k1 in Allowed() && k2 in Allowed()
      modifies this`lastDropTime, gameState`levelFailed, board`grid, gameState`score, gameState`linesCleared, gameState`level, gameState`dropDelay,
               gameState`levelComplete, gameState`levelStars, gameState`currentPiece, gameState`nextPiece,
               gameState`piecePosition, gameState`gameOver,
               Managers()`completedLevels, Managers()`levelScores, Managers()`levelStars
      ensures Valid() && PiecesValid()
      ensures if old(TimedOut(Snap(), now)) then
                Snap() == old(Snap()).(levelFailed := true) && lastDropTime == old(lastDropTime) && !done
              else if Due(old(Snap()), now, old(lastDropTime)) then
                lastDropTime == now && FellTo(old(Snap()), locked, done, stars, k1, k2, Snap()) &&
                (!FitsAt(old(Snap()), 0, 1) ==> Decided(old(Snap()), locked, now, done, stars))
              else
                Snap() == old(Snap()) && lastDropTime == old(lastDropTime) && !done
      ensures levelManager != null && done ==> levelManager.Completed(gameState.score, stars)
      ensures levelManager != null && !done ==> unchanged(levelManager)
    {
      locked, done, stars := Snap(), false, 0;
      if gameState.paused || gameState.gameOver {
        return;
      }
      if levelManager != null && gameState.gameMode == LEVEL_MODE && levelManager.IsTimeUp(now) {
        FailLevel();
        return;
      }
      locked, done, stars := Advance(now, k1, k2);
    }

    /** Flags the level as failed in the session. */
    method FailLevel()
      modifies gameState`levelFailed
      ensures Snap() == old(Snap()).(levelFailed := true)
    {
      gameState.levelFailed := true;
    }

    /** The rest of a frame once the game is known to be running and within
        its time: with a current piece in one of the game modes, the piece
        falls when the fall delay has passed. */
    method Advance(now: int, k1: Kind, k2: Kind) returns (ghost locked: Snapshot, ghost done: bool, ghost stars: int)
      requires Valid() && PiecesValid() && k1 in Allowed() && k2 in Allowed()
      requires !gameState.paused && !gameState.gameOver
      modifies this`lastDropTime, board`grid, gameState`score, gameState`linesCleared, gameState`level, gameState`dropDelay,
               gameState`levelComplete, gameState`levelStars, gameState`currentPiece, gameState`nextPiece,
               gameState`piecePosition, gameState`gameOver,
               Managers()`completedLevels, Managers()`levelScores, Managers()`levelStars
      ensures Valid() && PiecesValid()
      ensures !Due(old(Snap()), now, old(lastDropTime)) ==>
                Snap() == old(Snap()) && lastDropTime == old(lastDropTime) && !done
      ensures Due(old(Snap()), now, old(lastDropTime)) ==>
                lastDropTime == now && FellTo(old(Snap()), locked, done, stars, k1, k2, Snap()) &&
                (!FitsAt(old(Snap()), 0, 1) ==> Decided(old(Snap()), locked, now, done, stars))
      ensures levelManager != null && done ==> levelManager.Completed(gameState.score, stars)
      ensures levelManager != null && !done ==> unchanged(levelManager)
    {
      locked, done, stars := Snap(), false, 0;
      if gameState.currentPiece == null {
        return;
      }
      if gameState.gameMode != CLASSIC && gameState.gameMode != LEVEL_MODE {
        return;
      }
      if now - lastDropTime > gameState.dropDelay {
        locked, done, stars := Fall(now, k1, k2);
      }
    }

    /** A new game: a new empty board, every counter and flag back to its
        initial value (classic mode), the fall clock restarted at `now`, and a
        first piece spawned. */
    method ResetGame(now: int, k1: Kind, k2: Kind)
      requires Valid()
      modifies this`board, gameState, this`lastDropTime
      ensures Valid() && PiecesValid() && fresh(board)
      ensures Snap() == Spawned(Initial(), k1, k2) && lastDropTime == now
    {
      board := new Board(GameConfig.BOARD_WIDTH, GameConfig.BOARD_HEIGHT);
      gameState.Reset();
      lastDropTime := now;
      EveryKindListed(k1);
      EveryKindListed(k2);
      SpawnNewPiece(k1, k2);
    }
  }
}
