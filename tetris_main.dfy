/**
 * The single-file game (src/tetris_main.py with src/config.py). Its piece
 * and board are the shared `Piece` and `Board` classes; its session state,
 * scoring and game loop differ from the modular engine:
 *  - rows score base points plus 10 per level, and the level stops at 20;
 *  - moves and rotations are refused only while paused, not after the game
 *    is over;
 *  - a rotation is counted for the level before it is validated, and its
 *    wall kick tries only the first five offsets;
 *  - the automatic fall places the piece without checking the placement,
 *    clears and scores the rows regardless, and a completed level leaves
 *    the fall clock where it was.
 * The session is described by the snapshot of `Engines`, with the current
 * piece's column and row as its position.
 */
module Legacy {
  import opened Wrappers
  import opened Shapes
  import opened Pieces
  import opened Boards
  import opened Collision
  import LegacyConfig
  import GameStates
  import opened LevelManagers
  import opened Engines

  /** Up, up-right, up-left, right, left: the first five offsets of the
      modular engine's wall kick. */
  const LEGACY_KICKS: seq<Offset> := [(0, -1), (1, -1), (-1, -1), (1, 0), (-1, 0)]

  /** The counters after a clear of `n` rows under the single-file rules:
      nothing changes when no row was cleared; otherwise the base points and
      the level bonus are added, the rows are counted, the level is
      recomputed (capped at 20), and the fall delay follows the level only
      when the level changes. */
  function Tallied(c: GameStates.Counters, n: nat): GameStates.Counters
  {
    if n == 0 then c
    else
      var lines := c.lines + n;
      var level := LegacyConfig.Level(lines);
      GameStates.Counters(c.score + LegacyConfig.Score(n, c.level, 0), lines, level,
                          if level != c.level then LegacyConfig.DropDelay(level) else c.dropDelay)
  }

  /** Level and fall delay agree with the rows cleared, by the single-file
      curves. */
  predicate Agreeing(c: GameStates.Counters)
  {
    c.lines >= 0 && c.level == LegacyConfig.Level(c.lines) && c.dropDelay == LegacyConfig.DropDelay(c.level)
  }

  /** Agreeing counters keep agreeing after any clear; the rows are counted,
      the level stays between 1 and 20 and never falls, and a clear of at
      least one row earns at least 100 points plus the level bonus. */
  lemma TalliedKeepsAgreeing(c: GameStates.Counters, n: nat)
    requires Agreeing(c)
    ensures var d := Tallied(c, n);
            Agreeing(d) && d.lines == c.lines + n && 1 <= c.level <= d.level <= 20 &&
            (n > 0 ==> d.score >= c.score + 10 * c.level) &&
            (1 <= n <= 4 ==> d.score >= c.score + 100 + 10 * c.level) && (n == 0 ==> d == c)
  {
    if n > 0 {
      LegacyConfig.LevelMonotone(c.lines, c.lines + n);
    }
  }

  /** A move by (dx, dy): accepted, and the piece shifted, exactly when the
      game is not paused and the piece fits there, even after the game is
      over; otherwise nothing changes. */
  function Moved(v: Snapshot, dx: int, dy: int): (r: (bool, Snapshot))
    requires SnapOk(v) && v.current.Some?
    ensures SnapOk(r.1) && (PiecesInTable(v) ==> PiecesInTable(r.1))
  {
    if !v.paused && FitsAt(v, dx, dy) then (true, v.(pos := (v.pos.0 + dx, v.pos.1 + dy)))
    else (false, v)
  }

  /** While the game runs the move is the modular engine's move; after the
      game is over it still moves a piece that fits, which the modular
      engine refuses. */
  lemma MovedAgainstShifted(v: Snapshot, dx: int, dy: int)
    requires SnapOk(v) && v.current.Some?
    ensures Running(v) ==> Moved(v, dx, dy) == Shifted(v, dx, dy)
    ensures v.gameOver && !v.paused && FitsAt(v, dx, dy) ==> Moved(v, dx, dy).0 && !Shifted(v, dx, dy).0
  {
  }

  /** A rotation: refused, with nothing changed, while paused or when the
      level forbids it; otherwise the piece advances to its next state in
      place or at the first of the five offsets where it fits, and is
      restored when it fits at none. */
  function Spun(v: Snapshot, banned: bool): (r: (bool, Snapshot))
    requires SnapOk(v) && PiecesInTable(v) && v.current.Some?
    ensures SnapOk(r.1) && PiecesInTable(r.1)
  {
    if v.paused || banned then (false, v)
    else
      var p := v.current.value;
      NextRotationCycles(p.kind, p.rotation);
      TurnedTo(v, RotatedShape(p.kind, p.rotation), NextRotation(p.kind, p.rotation), LEGACY_KICKS)
  }

  /** A rotation is refused exactly when paused, forbidden, or when the
      rotated shape fits neither in place nor at any of the five offsets. */
  lemma SpunIff(v: Snapshot, banned: bool)
    requires SnapOk(v) && PiecesInTable(v) && v.current.Some?
    ensures var p := v.current.value;
            var s := RotatedShape(p.kind, p.rotation);
            !Spun(v, banned).0 <==>
              v.paused || banned ||
              (!Fits(v.grid, 10, 20, s, v.pos.0, v.pos.1) &&
               forall j :: 0 <= j < |LEGACY_KICKS| ==>
                 !Fits(v.grid, 10, 20, s, v.pos.0 + LEGACY_KICKS[j].0, v.pos.1 + LEGACY_KICKS[j].1))
  {
    if !v.paused && !banned {
      var p := v.current.value;
      NextRotationCycles(p.kind, p.rotation);
      var (s, rot) := (RotatedShape(p.kind, p.rotation), NextRotation(p.kind, p.rotation));
      assert Spun(v, banned) == TurnedTo(v, s, rot, LEGACY_KICKS);
      TurnedToIff(v, s, rot, LEGACY_KICKS);
    }
  }

  /** A search that finds an offset in a prefix of a list finds the same
      offset in the whole list. */
  lemma {:induction false} FirstFitPrefix(g: Grid, w: nat, h: nat, s: Shape, x: int, y: int,
                                          offs: seq<Offset>, n: nat, i: nat)
    requires WellFormed(g, w, h) && IsShape(s) && i <= n <= |offs|
    requires FirstFit(g, w, h, s, x, y, offs[..n], i).Some?
    ensures FirstFit(g, w, h, s, x, y, offs, i) == FirstFit(g, w, h, s, x, y, offs[..n], i)
    decreases n - i
  {
    assert offs[..n][i] == offs[i];
    if !Fits(g, w, h, s, x + offs[i].0, y + offs[i].1) {
      FirstFitPrefix(g, w, h, s, x, y, offs, n, i + 1);
    }
  }

  /** When the rotation lands somewhere with the first `n` offsets, it
      lands at the same place with the whole list. */
  lemma RotationTargetPrefix(g: Grid, w: nat, h: nat, s: Shape, x: int, y: int, offs: seq<Offset>, n: nat)
    requires WellFormed(g, w, h) && IsShape(s) && n <= |offs|
    requires RotationTarget(g, w, h, s, x, y, offs[..n]).Some?
    ensures RotationTarget(g, w, h, s, x, y, offs) == RotationTarget(g, w, h, s, x, y, offs[..n])
  {
    if !Fits(g, w, h, s, x, y) {
      var k := FirstFit(g, w, h, s, x, y, offs[..n], 0);
      assert k.Some?;
      FirstFitPrefix(g, w, h, s, x, y, offs, n, 0);
      assert offs[..n][k.value] == offs[k.value];
    }
  }

  /** A rotation the single-file game accepts is accepted by the modular
      engine too, with the same result: its five offsets come first in the
      modular list. */
  lemma SpunAgreesWithTurned(v: Snapshot, banned: bool)
    requires SnapOk(v) && PiecesInTable(v) && Running(v) && Spun(v, banned).0
    ensures Turned(v, banned) == Spun(v, banned)
  {
    var p := v.current.value;
    NextRotationCycles(p.kind, p.rotation);
    assert LEGACY_KICKS == KICK_OFFSETS[..5];
    RotationTargetPrefix(v.grid, 10, 20, RotatedShape(p.kind, p.rotation), v.pos.0, v.pos.1, KICK_OFFSETS, 5);
  }

  /** The lock of the single-file game: the piece is written into the grid
      when it fits where it stands, and the full rows are cleared and scored
      in any case. */
  function Landed(v: Snapshot): (r: Snapshot)
    requires SnapOk(v)
    ensures SnapOk(r) && r.current == v.current && r.next == v.next && r.pos == v.pos
  {
    var w := if Placeable(v) then Stamped(v) else v;
    CompactedShape(w.grid, 10, 20);
    w.(grid := Compacted(w.grid, 10), tally := Tallied(w.tally, FullCount(w.grid)))
  }

  /** A piece that fits lands on the same grid as the modular engine's lock,
      with the same rows counted; only the points differ. */
  lemma LandedLikeLocked(v: Snapshot)
    requires SnapOk(v) && Placeable(v)
    ensures Landed(v).grid == Locked(v).grid && Landed(v).tally.lines == Locked(v).tally.lines
  {
  }

  /** `r` is the session after the lock sequence from `v`: with `locked`
      the session after the lock, the level is recorded as complete with
      grade `stars` when `done`, and the next piece spawns when not. */
  predicate LandedTo(v: Snapshot, locked: Snapshot, done: bool, stars: int, k1: Kind, k2: Kind, r: Snapshot)
    requires SnapOk(v)
  {
    locked == Landed(v) &&
    r == if done then locked.(levelComplete := true, levelStars := stars) else Spawned(locked, k1, k2)
  }

  /** `r` is the session after an automatic fall from `v`: one row down
      when the move is accepted, otherwise the lock sequence. */
  predicate DescendedTo(v: Snapshot, locked: Snapshot, done: bool, stars: int, k1: Kind, k2: Kind, r: Snapshot)
    requires SnapOk(v) && v.current.Some?
  {
    if Moved(v, 0, 1).0 then r == Moved(v, 0, 1).1 && !done
    else LandedTo(v, locked, done, stars, k1, k2, r)
  }

  /** A fall that does not complete the level leaves a piece that fits or
      a game that is over, starting from any session. */
  lemma DescendedSettles(v: Snapshot, locked: Snapshot, done: bool, stars: int, k1: Kind, k2: Kind, r: Snapshot)
    requires SnapOk(v) && v.current.Some? && Settled(v) && !done
    requires DescendedTo(v, locked, done, stars, k1, k2, r)
    ensures SnapOk(r) && Settled(r) && r.current.Some?
  {
    if !Moved(v, 0, 1).0 {
      SpawnedSettles(locked, k1, k2);
    }
  }

  /** Looks for the first offset of `offs` at which the piece fits, reading
      the board only. */
  method Kick(piece: Piece, board: Board, x: int, y: int, offs: seq<Offset>) returns (found: bool, p: Offset)
    requires IsShape(piece.shape) && board.Valid()
    ensures var k := FirstFit(board.grid, board.width, board.height, piece.shape, x, y, offs, 0);
            found == k.Some? && (found ==> p == (x + offs[k.value].0, y + offs[k.value].1))
  {
    ghost var (g, w, h, s) := (board.grid, board.width, board.height, piece.shape);
    var i := 0;
    while i < |offs|
      invariant 0 <= i <= |offs|
      invariant WellFormed(g, w, h) && IsShape(s)
      invariant g == board.grid && w == board.width && h == board.height && s == piece.shape
      invariant FirstFit(g, w, h, s, x, y, offs, 0) == FirstFit(g, w, h, s, x, y, offs, i)
    {
      var nx, ny := x + offs[i].0, y + offs[i].1;
      var ok := board.IsValidPosition(piece, nx, ny);
      FirstFitStep(g, w, h, s, x, y, offs, i);
      if ok {
        return true, (nx, ny);
      }
      i := i + 1;
    }
    return false, (x, y);
  }

  /** When the piece does not fit in place, the rotation lands where the
      search over `offs` found a fit, and nowhere when it found none. */
  lemma KickDecides(g: Grid, w: nat, h: nat, s: Shape, x: int, y: int, offs: seq<Offset>, found: bool, p: Offset)
    requires WellFormed(g, w, h) && IsShape(s) && !Fits(g, w, h, s, x, y)
    requires var k := FirstFit(g, w, h, s, x, y, offs, 0);
             found == k.Some? && (found ==> p == (x + offs[k.value].0, y + offs[k.value].1))
    ensures RotationTarget(g, w, h, s, x, y, offs) == if found then Some(p) else None
  {
    FirstFitMeaning(g, w, h, s, x, y, offs, 0);
  }

  /** Keeps the state the piece has just rotated to when it fits at (x, y)
      or at the first offset of `offs` where it does, reporting where;
      otherwise puts the piece back to its table state `original`. */
  method Settle(piece: Piece, board: Board, x: int, y: int, original: nat, offs: seq<Offset>) returns (ok: bool, p: Offset)
    requires piece.Valid() && board.Valid() && original < StateCount(piece.kind)
    modifies piece`rotation, piece`shape
    ensures piece.Valid()
    ensures var t := RotationTarget(board.grid, board.width, board.height, old(piece.shape), x, y, offs);
            ok == t.Some? && (ok ==> p == t.value && piece.rotation == old(piece.rotation)) &&
            (!ok ==> piece.rotation == original)
  {
    ghost var (g, s) := (board.grid, piece.shape);
    StatesAreShapes(piece.kind, piece.rotation);
    ok := board.IsValidPosition(piece, x, y);
    if ok {
      return ok, (x, y);
    }
    ok, p := Kick(piece, board, x, y, offs);
    KickDecides(g, board.width, board.height, s, x, y, offs, ok, p);
    if !ok {
      piece.rotation := original;
      piece.shape := States(piece.kind)[original];
    }
  }

  /** Turns the piece to its next state and settles it there as `Settle`
      does: the piece ends in the rotated state at the returned position
      when the rotated shape fits in place or at an offset of `offs`, and in
      the state it had otherwise. */
  method Reorient(piece: Piece, board: Board, x: int, y: int, offs: seq<Offset>) returns (ok: bool, p: Offset)
    requires piece.Valid() && board.Valid()
    modifies piece`rotation, piece`shape
    ensures piece.Valid() && IsShape(piece.shape)
    ensures var t := RotationTarget(board.grid, board.width, board.height,
                                    RotatedShape(piece.kind, old(piece.rotation)), x, y, offs);
            ok == t.Some? && (ok ==> p == t.value)
    ensures ok ==> piece.rotation == NextRotation(piece.kind, old(piece.rotation))
    ensures !ok ==> piece.rotation == old(piece.rotation) && piece.shape == old(piece.shape)
  {
    var original := piece.rotation;
    var _ := piece.Rotate();
    ok, p := Settle(piece, board, x, y, original, offs);
    StatesAreShapes(piece.kind, piece.rotation);
  }

  /** The session state of the single-file game. */
  class GameState {
    var score: int
    var level: int
    var linesCleared: int
    var gameOver: bool
    var paused: bool
    var currentPiece: Piece?
    var nextPiece: Piece?
    var pieceX: int
    var pieceY: int
    var dropTime: int
    var dropDelay: int
    var gameMode: string
    var currentLevelId: int
    var levelComplete: bool
    var levelFailed: bool
    var levelStars: int
    /** The board the game attaches after construction; spawning reads it. */
    var board: Board?

    /** Every field holds its value of a new session, with no board yet. */
    predicate IsInitial()
      reads this
    {
      score == 0 && level == 1 && linesCleared == 0 && !gameOver && !paused &&
      currentPiece == null && nextPiece == null && pieceX == 0 && pieceY == 0 && dropTime == 0 &&
      dropDelay == 1000 && gameMode == GameStates.CLASSIC && currentLevelId == 1 &&
      !levelComplete && !levelFailed && levelStars == 0 && board == null
    }

    /** Level and fall delay agree with the rows cleared so far. */
    predicate Consistent()
      reads this`score, this`level, this`linesCleared, this`dropDelay
    {
      Agreeing(Tally())
    }

    function Tally(): GameStates.Counters
      reads this`score, this`linesCleared, this`level, this`dropDelay
    {
      GameStates.Counters(score, linesCleared, level, dropDelay)
    }

    constructor ()
      ensures IsInitial() && Consistent()
    {
      score, level, linesCleared := 0, 1, 0;
      gameOver, paused := false, false;
      currentPiece, nextPiece := null, null;
      pieceX, pieceY, dropTime := 0, 0, 0;
      dropDelay := 1000;
      gameMode := GameStates.CLASSIC;
      currentLevelId := 1;
      levelComplete, levelFailed := false, false;
      levelStars := 0;
      board := null;
    }

    /** Adds the single-file points for `n` rows at the current level, with
        no combo bonus, and counts the rows. */
    method UpdateScore(n: int)
      modifies this`score, this`linesCleared
      ensures score == old(score) + LegacyConfig.Score(n, level, 0)
      ensures linesCleared == old(linesCleared) + n
    {
      score := score + LegacyConfig.Score(n, level, 0);
      linesCleared := linesCleared + n;
    }

    /** Recomputes the capped level from the rows cleared; the fall delay is
        recomputed only when the level changes. */
    method UpdateLevel()
      modifies this`level, this`dropDelay
      ensures level == LegacyConfig.Level(linesCleared) && level <= 20
      ensures dropDelay == if level != old(level) then LegacyConfig.DropDelay(level) else old(dropDelay)
      ensures old(dropDelay) == LegacyConfig.DropDelay(old(level)) && linesCleared >= 0 ==> Consistent()
    {
      var newLevel := LegacyConfig.Level(linesCleared);
      if newLevel != level {
        level := newLevel;
        dropDelay := LegacyConfig.DropDelay(level);
      }
    }

    /** Makes a new piece of kind `k` current at half its width across and
        row 0 (not the centred column the game itself uses), and ends the
        game if it does not fit there on the attached board. */
    method SpawnPiece(k: Kind)
      requires board != null && board.Valid()
      modifies this`currentPiece, this`pieceX, this`pieceY, this`gameOver
      ensures currentPiece != null && fresh(currentPiece) && currentPiece.Valid()
      ensures currentPiece.kind == k && currentPiece.rotation == 0
      ensures pieceX == currentPiece.Width() / 2 && pieceY == 0
      ensures gameOver == (old(gameOver) || !Fits(board.grid, board.width, board.height, currentPiece.shape, pieceX, 0))
    {
      var p := new Piece(k);
      StatesAreShapes(k, 0);
      currentPiece := p;
      pieceX, pieceY := p.Width() / 2, 0;
      var ok := board.IsValidPosition(p, pieceX, pieceY);
      if !ok {
        gameOver := true;
      }
    }
  }

  class TetrisGame {
    var board: Board
    var gameState: GameState
    /** The level manager, when one could be loaded. */
    const levelManager: LevelManager?
    var lastDropTime: int

    /** The board is 10 x 20 and well formed, the pieces have rectangular
        shapes and are distinct objects, and a level time limit comes with a
        start time; a current piece need not exist yet. */
    ghost predicate Valid()
      reads this`board, this`gameState, board, gameState`currentPiece, gameState`nextPiece,
            gameState.currentPiece, gameState.nextPiece, Managers()`timeLimit, Managers()`startTime
    {
      BoardOk() && ClockOk() && Shaped()
    }

    /** The board is 10 x 20 and well formed. */
    ghost predicate BoardOk()
      reads this`board, board
    {
      board.Valid() && board.width == 10 && board.height == 20
    }

    /** The pieces have rectangular shapes and are distinct objects. */
    ghost predicate Shaped()
      reads this`gameState, gameState`currentPiece, gameState`nextPiece, gameState.currentPiece, gameState.nextPiece
    {
      (gameState.currentPiece != null ==> IsShape(gameState.currentPiece.shape) &&
                                          gameState.currentPiece != gameState.nextPiece) &&
      (gameState.nextPiece != null ==> IsShape(gameState.nextPiece.shape))
    }

    /** There is a current piece, as from the first spawn on. */
    predicate HasPiece()
      reads this`gameState, gameState`currentPiece
    {
      gameState.currentPiece != null
    }

    /** A level time limit comes with a start time. */
    predicate ClockOk()
      reads Managers()`timeLimit, Managers()`startTime
    {
      levelManager != null ==> levelManager.Started()
    }

    /** The current and the reserve piece are states of their kind's table. */
    ghost predicate PiecesValid()
      reads this`gameState, gameState`currentPiece, gameState`nextPiece, gameState.currentPiece, gameState.nextPiece
    {
      (gameState.currentPiece != null ==> gameState.currentPiece.Valid()) &&
      (gameState.nextPiece != null ==> gameState.nextPiece.Valid())
    }

    /** The session as a value, with (column, row) as the position. */
    function Snap(): Snapshot
      reads this`board, board`grid, this`gameState, gameState, gameState.currentPiece, gameState.nextPiece
    {
      var gs := gameState;
      Snapshot(board.grid, gs.Tally(),
               if gs.currentPiece == null then None else Some(gs.currentPiece.View()),
               if gs.nextPiece == null then None else Some(gs.nextPiece.View()),
               (gs.pieceX, gs.pieceY), gs.gameOver, gs.paused, gs.gameMode,
               gs.levelComplete, gs.levelFailed, gs.levelStars)
    }

    /** The level rules apply only with a level manager in level mode. */
    predicate InLevelMode()
      reads this`gameState, gameState`gameMode
    {
      levelManager != null && gameState.gameMode == GameStates.LEVEL_MODE
    }

    /** The kinds a new piece may be drawn from. */
    function Allowed(): seq<Kind>
      reads this`gameState, gameState`gameMode, Managers()`currentLevelConfig
    {
      if InLevelMode() then levelManager.AvailablePieceTypes() else ALL_KINDS
    }

    /** Session `w`, just after a lock, completes the level at time `now`. */
    predicate Completes(w: Snapshot, now: int)
      reads Managers()`currentLevelConfig, Managers()`timeLimit, Managers()`startTime
    {
      levelManager != null && w.mode == GameStates.LEVEL_MODE &&
      levelManager.CheckLevelComplete(w.tally.lines, w.tally.score, now)
    }

    /** The grade such a completion earns. */
    function Earned(w: Snapshot, now: int): int
      reads Managers()`currentLevelConfig, Managers()`timeLimit, Managers()`startTime
    {
      if !Completes(w, now) then 0
      else levelManager.Stars(w.tally.lines, w.tally.score, levelManager.TimeRemaining(now))
    }

    /** The level outcome of a lock that left `locked`: complete exactly when
        the manager finds the goal reached, whether or not the piece was
        actually placed. */
    predicate Decided(locked: Snapshot, now: int, done: bool, stars: int)
      reads Managers()`currentLevelConfig, Managers()`timeLimit, Managers()`startTime
    {
      done == Completes(locked, now) && stars == (if done then Earned(locked, now) else 0)
    }

    /** The level's time is up: a level manager in level mode reports it. */
    predicate TimedOut(now: int)
      reads this`gameState, gameState`gameMode, Managers()`timeLimit, Managers()`startTime
    {
      InLevelMode() && levelManager.Started() && levelManager.IsTimeUp(now)
    }

    function CurrentPieces(): set<Piece>
      reads this`gameState, gameState`currentPiece
    {
      if gameState.currentPiece == null then {} else {gameState.currentPiece}
    }

    function Managers(): set<LevelManager>
    {
      if levelManager == null then {} else {levelManager}
    }

    /** A new game: an empty board, a new session attached to it, the level
        manager `m` (none when it cannot be loaded), the fall clock at `now`,
        and a first piece spawned. */
    constructor (now: int, m: LevelManager?, k1: Kind, k2: Kind)
      requires m != null ==> m.Started()
      ensures Valid() && HasPiece() && PiecesValid() && fresh(board) && fresh(gameState) && gameState.board == board
      ensures levelManager == m && lastDropTime == now
      ensures Snap() == Spawned(Initial(), k1, k2)
    {
      var b := new Board(LegacyConfig.BOARD_WIDTH, LegacyConfig.BOARD_HEIGHT);
      var gs := new GameState();
      gs.board := b;
      board, gameState := b, gs;
      levelManager := m;
      lastDropTime := now;
      new;
      EveryKindListed(k1);
      EveryKindListed(k2);
      assert Snap() == Initial() && Allowed() == ALL_KINDS;
      SpawnNewPiece(k1, k2);
    }

    /** Draws a reserve of kind `k1` when there is none. */
    method Reserve(k1: Kind)
      requires Valid() && PiecesValid()
      modifies gameState`nextPiece
      ensures Valid() && PiecesValid() && gameState.nextPiece != null
      ensures Snap() == Reserved(old(Snap()), k1)
    {
      if gameState.nextPiece == null {
        gameState.nextPiece := new Piece(k1);
        StatesAreShapes(k1, 0);
      }
    }

    /** Promotes the reserve and draws a new one of kind `k2`. */
    method Promote(k2: Kind)
      requires Valid() && PiecesValid() && gameState.nextPiece != null
      modifies gameState`currentPiece, gameState`nextPiece
      ensures Valid() && HasPiece() && PiecesValid() && fresh(gameState.nextPiece)
      ensures Snap() == Promoted(old(Snap()), k2)
    {
      gameState.currentPiece := gameState.nextPiece;
      gameState.nextPiece := new Piece(k2);
      StatesAreShapes(k2, 0);
    }

    /** Puts the current piece at its spawn column on row 0 and ends the game
        if it does not fit there. */
    method Enter()
      requires Valid() && HasPiece() && PiecesValid()
      modifies gameState`pieceX, gameState`pieceY, gameState`gameOver
      ensures Snap() == Entering(old(Snap()))
    {
      var piece := gameState.currentPiece;
      StatesAreShapes(piece.kind, piece.rotation);
      gameState.pieceX := LegacyConfig.BOARD_WIDTH as int / 2 - piece.Width() / 2;
      gameState.pieceY := 0;
      var ok := board.IsValidPosition(piece, gameState.pieceX, gameState.pieceY);
      if !ok {
        gameState.gameOver := true;
      }
    }

    /** Promotes the reserve, draws a new one, puts the current piece at its
        spawn column on row 0, and ends the game if it does not fit there. */
    method SpawnNewPiece(k1: Kind, k2: Kind)
      requires Valid() && PiecesValid() && k1 in Allowed() && k2 in Allowed()
      modifies gameState`currentPiece, gameState`nextPiece, gameState`pieceX, gameState`pieceY, gameState`gameOver
      ensures Valid() && HasPiece() && PiecesValid() && fresh(gameState.nextPiece)
      ensures Snap() == Spawned(old(Snap()), k1, k2)
    {
      Reserve(k1);
      Promote(k2);
      Enter();
    }

    /** Shifts the current piece by (dx, dy) when the game is not paused and
        the shifted position is valid. */
    method MovePiece(dx: int, dy: int) returns (ok: bool)
      requires Valid() && HasPiece()
      modifies gameState`pieceX, gameState`pieceY
      ensures Valid() && HasPiece() && (old(PiecesValid()) ==> PiecesValid())
      ensures (ok, Snap()) == Moved(old(Snap()), dx, dy)
    {
      if gameState.paused {
        return false;
      }
      var nx, ny := gameState.pieceX + dx, gameState.pieceY + dy;
      ok := board.IsValidPosition(gameState.currentPiece, nx, ny);
      if ok {
        gameState.pieceX, gameState.pieceY := nx, ny;
      }
    }

    /** Rotates the current piece unless paused or the level's rotation cap
        is reached, counting the rotation in level mode before checking it;
        keeps it in place or at the first of the five offsets where it fits,
        and otherwise restores the table state it had. */
    method RotatePiece() returns (ok: bool)
      requires Valid() && HasPiece() && PiecesValid()
      modifies gameState`pieceX, gameState`pieceY, CurrentPieces()`rotation, CurrentPieces()`shape,
               Managers()`rotationCount
      ensures Valid() && HasPiece() && PiecesValid()
      ensures (ok, Snap()) == Spun(old(Snap()), InLevelMode() && old(levelManager.CheckRuleViolation(ROTATE)))
      ensures levelManager != null ==>
                levelManager.rotationCount == old(levelManager.rotationCount) +
                  if !gameState.paused && InLevelMode() && !old(levelManager.CheckRuleViolation(ROTATE)) then 1 else 0
    {
      if gameState.paused {
        return false;
      }
      if levelManager != null && gameState.gameMode == GameStates.LEVEL_MODE && levelManager.CheckRuleViolation(ROTATE) {
        return false;
      }
      ok := Turn();
    }

    /** The unguarded rotation: counts the turn in level mode, turns the
        piece, then keeps it in place or at the first of the five offsets
        where it fits, or restores the state it had. The count comes before
        the turn here and just after it in the game; nothing can observe
        the difference, since turning a piece cannot fail. */
    method Turn() returns (ok: bool)
      requires Valid() && HasPiece() && PiecesValid()
      modifies gameState`pieceX, gameState`pieceY, CurrentPieces()`rotation, CurrentPieces()`shape,
               Managers()`rotationCount
      ensures Valid() && HasPiece() && PiecesValid()
      ensures var p := old(Snap()).current.value;
              (ok, Snap()) == TurnedTo(old(Snap()), RotatedShape(p.kind, p.rotation), NextRotation(p.kind, p.rotation), LEGACY_KICKS)
      ensures levelManager != null ==>
                levelManager.rotationCount == old(levelManager.rotationCount) + if InLevelMode() then 1 else 0
    {
      if levelManager != null && gameState.gameMode == GameStates.LEVEL_MODE {
        levelManager.RecordRotation();
      }
      var p;
      ok, p := Reorient(gameState.currentPiece, board, gameState.pieceX, gameState.pieceY, LEGACY_KICKS);
      if ok {
        gameState.pieceX, gameState.pieceY := p.0, p.1;
      }
    }

    /** Writes the current piece into the grid where it stands, when it fits
        there; the result is not used. */
    method StampPiece()
      requires Valid() && HasPiece()
      modifies board`grid
      ensures Valid() && HasPiece()
      ensures Snap() == if Placeable(old(Snap())) then Stamped(old(Snap())) else old(Snap())
    {
      var _ := board.PlacePiece(gameState.currentPiece, gameState.pieceX, gameState.pieceY);
    }

    /** Clears the full rows and, when any were cleared, scores them and
        recomputes the level. */
    method ClearAndScore()
      requires Valid() && HasPiece()
      modifies board`grid, gameState`score, gameState`linesCleared, gameState`level, gameState`dropDelay
      ensures Valid() && HasPiece()
      ensures Snap() == old(Snap()).(grid := Compacted(old(board.grid), 10),
                                     tally := Tallied(old(gameState.Tally()), FullCount(old(board.grid))))
    {
      var n := board.ClearLines();
      ScoreRows(n);
    }

    /** Scores `n` cleared rows and recomputes the level, when there are any. */
    method ScoreRows(n: nat)
      modifies gameState`score, gameState`linesCleared, gameState`level, gameState`dropDelay
      ensures gameState.Tally() == Tallied(old(gameState.Tally()), n)
    {
      if n > 0 {
        gameState.UpdateScore(n);
        gameState.UpdateLevel();
      }
    }

    /** The lock: the piece placed where it stands if it fits, then the full
        rows cleared and scored in any case. */
    method LockPiece()
      requires Valid() && HasPiece() && PiecesValid()
      modifies board`grid, gameState`score, gameState`linesCleared, gameState`level, gameState`dropDelay
      ensures Valid() && HasPiece() && PiecesValid() && Allowed() == old(Allowed())
      ensures Snap() == Landed(old(Snap()))
    {
      StampPiece();
      ClearAndScore();
    }

    /** Flags the level as complete, with grade `stars`, in the session. */
    method FlagComplete(stars: int)
      modifies gameState`levelComplete, gameState`levelStars
      ensures Snap() == old(Snap()).(levelComplete := true, levelStars := stars)
    {
      gameState.levelComplete := true;
      gameState.levelStars := stars;
    }

    /** Grades the completed level `m`, records the completion and flags the
        level as complete in the session. */
    method FinishLevel(m: LevelManager, now: int) returns (stars: int)
      modifies gameState`levelComplete, gameState`levelStars, m`completedLevels, m`levelScores, m`levelStars
      ensures stars == old(m.Stars(gameState.linesCleared, gameState.score, m.TimeRemaining(now)))
      ensures Snap() == old(Snap()).(levelComplete := true, levelStars := stars)
      ensures m.Completed(gameState.score, stars)
    {
      var remaining := m.TimeRemaining(now);
      stars := m.CalculateStars(gameState.linesCleared, gameState.score, remaining);
      m.CompleteLevel(gameState.linesCleared, gameState.score, stars);
      FlagComplete(stars);
    }

    /** After the lock that left session `w`: completes the level when the
        manager says so, and otherwise spawns the next piece and restarts the
        fall clock at `now`. */
    method Conclude(ghost w: Snapshot, now: int, k1: Kind, k2: Kind) returns (done: bool, ghost stars: int)
      requires Valid() && HasPiece() && PiecesValid() && k1 in Allowed() && k2 in Allowed() && Snap() == w
      modifies this`lastDropTime, gameState`levelComplete, gameState`levelStars, gameState`currentPiece, gameState`nextPiece,
               gameState`pieceX, gameState`pieceY, gameState`gameOver,
               Managers()`completedLevels, Managers()`levelScores, Managers()`levelStars
      ensures Valid() && HasPiece() && PiecesValid()
      ensures Decided(w, now, done, stars)
      ensures Snap() == if done then w.(levelComplete := true, levelStars := stars) else Spawned(w, k1, k2)
      ensures !done ==> lastDropTime == now
      ensures done ==> lastDropTime == old(lastDropTime)
      ensures levelManager != null ==>
                if done then levelManager.Completed(gameState.score, stars) else unchanged(levelManager)
    {
      stars := Earned(w, now);
      done := levelManager != null && gameState.gameMode == GameStates.LEVEL_MODE &&
              levelManager.CheckLevelComplete(gameState.linesCleared, gameState.score, now);
      if done {
        var _ := FinishLevel(levelManager, now);
      } else {
        Continue(now, k1, k2);
      }
    }

    /** Spawns the next piece and restarts the fall clock at `now`. */
    method Continue(now: int, k1: Kind, k2: Kind)
      requires Valid() && PiecesValid() && k1 in Allowed() && k2 in Allowed()
      modifies this`lastDropTime, gameState`currentPiece, gameState`nextPiece, gameState`pieceX, gameState`pieceY,
               gameState`gameOver
      ensures Valid() && HasPiece() && PiecesValid() && lastDropTime == now
      ensures Snap() == Spawned(old(Snap()), k1, k2)
    {
      SpawnNewPiece(k1, k2);
      lastDropTime := now;
    }

    /** The lock sequence of the fall: lock, then either complete the level
        or spawn the next piece and restart the fall clock. */
    method Land(now: int, k1: Kind, k2: Kind) returns (ghost done: bool, ghost locked: Snapshot, ghost stars: int)
      requires Valid() && HasPiece() && PiecesValid() && k1 in Allowed() && k2 in Allowed()
      modifies this`lastDropTime, board`grid, gameState`score, gameState`linesCleared, gameState`level, gameState`dropDelay,
               gameState`levelComplete, gameState`levelStars, gameState`currentPiece, gameState`nextPiece,
               gameState`pieceX, gameState`pieceY, gameState`gameOver,
               Managers()`completedLevels, Managers()`levelScores, Managers()`levelStars
      ensures Valid() && HasPiece() && PiecesValid()
      ensures LandedTo(old(Snap()), locked, done, stars, k1, k2, Snap())
      ensures Decided(locked, now, done, stars)
      ensures !done ==> lastDropTime == now
      ensures done ==> lastDropTime == old(lastDropTime)
      ensures levelManager != null ==>
                if done then levelManager.Completed(gameState.score, stars) else unchanged(levelManager)
    {
      LockPiece();
      locked := Snap();
      done, stars := Conclude(locked, now, k1, k2);
    }

    /** The automatic fall: one row down, or, when the move is refused, the
        lock sequence; the fall clock becomes `now` unless the level was
        completed. */
    method Fall(now: int, k1: Kind, k2: Kind) returns (ghost locked: Snapshot, ghost done: bool, ghost stars: int)
      requires Valid() && HasPiece() && PiecesValid() && k1 in Allowed() && k2 in Allowed()
      modifies this`lastDropTime, board`grid, gameState`score, gameState`linesCleared, gameState`level, gameState`dropDelay,
               gameState`levelComplete, gameState`levelStars, gameState`currentPiece, gameState`nextPiece,
               gameState`pieceX, gameState`pieceY, gameState`gameOver,
               Managers()`completedLevels, Managers()`levelScores, Managers()`levelStars
      ensures Valid() && HasPiece() && PiecesValid()
      ensures DescendedTo(old(Snap()), locked, done, stars, k1, k2, Snap())
      ensures !Moved(old(Snap()), 0, 1).0 ==> Decided(locked, now, done, stars)
      ensures !done ==> lastDropTime == now
      ensures done ==> lastDropTime == old(lastDropTime)
      ensures levelManager != null && done ==> levelManager.Completed(gameState.score, stars)
      ensures levelManager != null && !done ==> unchanged(levelManager)
    {
      locked, done, stars := Snap(), false, 0;
      var ok := MovePiece(0, 1);
      if ok {
        lastDropTime := now;
      } else {
        done, locked, stars := Land(now, k1, k2);
      }
    }

    /** One frame of the game loop at time `now`: nothing while paused or
        over; a level whose time is up is failed; otherwise the piece falls
        when more than the session's fall delay has passed. */
    method Update(now: int, k1: Kind, k2: Kind) returns (ghost locked: Snapshot, ghost done: bool, ghost stars: int)
      requires Valid() && HasPiece() && PiecesValid() && k1 in Allowed() && k2 in Allowed()
      modifies this`lastDropTime, gameState`levelFailed, board`grid, gameState`score, gameState`linesCleared,
               gameState`level, gameState`dropDelay,
               gameState`levelComplete, gameState`levelStars, gameState`currentPiece, gameState`nextPiece,
               gameState`pieceX, gameState`pieceY, gameState`gameOver,
               Managers()`completedLevels, Managers()`levelScores, Managers()`levelStars
      ensures Valid() && HasPiece() && PiecesValid()
      ensures old(gameState.paused || gameState.gameOver) ==>
                Snap() == old(Snap()) && lastDropTime == old(lastDropTime) && !done
      ensures old(!gameState.paused && !gameState.gameOver && TimedOut(now)) ==>
                Snap() == old(Snap()).(levelFailed := true) && lastDropTime == old(lastDropTime) && !done
      ensures old(!gameState.paused && !gameState.gameOver && !TimedOut(now) &&
                  now - lastDropTime > gameState.dropDelay) ==>
                DescendedTo(old(Snap()), locked, done, stars, k1, k2, Snap()) &&
                (!Moved(old(Snap()), 0, 1).0 ==> Decided(locked, now, done, stars)) &&
                lastDropTime == if done then old(lastDropTime) else now
      ensures old(!gameState.paused && !gameState.gameOver && !TimedOut(now) &&
                  now - lastDropTime <= gameState.dropDelay) ==>
                Snap() == old(Snap()) && lastDropTime == old(lastDropTime) && !done
      ensures levelManager != null && done ==> levelManager.Completed(gameState.score, stars)
      ensures levelManager != null && !done ==> unchanged(levelManager)
    {
      locked, done, stars := Snap(), false, 0;
      if gameState.paused || gameState.gameOver {
        return;
      }
      if levelManager != null && gameState.gameMode == GameStates.LEVEL_MODE && levelManager.IsTimeUp(now) {
        gameState.levelFailed := true;
        return;
      }
      if now - lastDropTime > gameState.dropDelay {
        locked, done, stars := Fall(now, k1, k2);
      }
    }

    /** A new game: a new empty board and a new session attached to it
        (classic mode), the fall clock restarted at `now`, and a first piece
        spawned; the level manager is kept. */
    method ResetGame(now: int, k1: Kind, k2: Kind)
      requires ClockOk()
      modifies this`board, this`gameState, this`lastDropTime
      ensures Valid() && HasPiece() && PiecesValid() && fresh(board) && fresh(gameState) && gameState.board == board
      ensures Snap() == Spawned(Initial(), k1, k2) && lastDropTime == now
    {
      var b := new Board(LegacyConfig.BOARD_WIDTH, LegacyConfig.BOARD_HEIGHT);
      var gs := new GameState();
      gs.board := b;
      board, gameState := b, gs;
      lastDropTime := now;
      EveryKindListed(k1);
      EveryKindListed(k2);
      assert Snap() == Initial() && Allowed() == ALL_KINDS;
      SpawnNewPiece(k1, k2);
    }
  }
}
