# Tetris game logic in Dafny

This project models the deterministic game logic of the `tetris_game` repository. That covers:

- falling pieces and their rotation table;
- the 10×20 grid of optional colours, with validity checks, placement and row compaction;
- collision checks and the wall kick;
- the session counters;
- the score, level and drop-delay rules;
- the table of 20 levels, with its unlock rule, star grading and rule enforcement;
- the score history.

The repository holds two game engines, a modular one and a legacy monolith. Their scoring rules differ, so they are modelled side by side and not merged.

Modules (one per source file; each imports only the modules it needs):

- `Wrappers`: `Option`.
- `Shapes`: the seven piece kinds and their rotation-state table (`src/tetris_main.py:36-109`). The modular piece imports the same table from a constants file that is not part of this model.
- `Pieces`: `Piece`, a kind plus a rotation index into the table. It is a class because `rotate` updates the fields in place.
- `Boards`: `Board`, a grid `seq<seq<Option<Color>>>` field that the methods reassign.
  - `IsValidPosition` and `PlacePiece` are nested loops.
  - `ClearLines` is the source's while loop, which removes a full row and inserts an empty one at the top. It is proved to equal the specification function `Compacted`.
  - The legacy monolith's `Piece` and `Board` (`src/tetris_main.py:112-212`) are the same code as `src/core/piece.py` and `src/core/board.py`. Both engines use these two classes.
- `Collision`: the ordered offset search `FirstFit`, the wall kick and rotate-then-restore.
- `GameConfig` and `LegacyConfig`: the two score, level and delay rule sets.
- `GameStates`: the modular session counters.
- `Levels`: the 20-entry level table and the unlock rule.
- `LevelManagers`: the level manager. It handles loading, rule checks, the time limit, stars, and completion bookkeeping.
- The three engines: `Engines`, `OptimizedEngines` and `Legacy`. Each engine's methods are proved against pure transition functions over a value snapshot of its state (`Snapshot`). These are `Shifted`, `Turned`, `Spawned`, `Locked`, `PlacedTo` and `FellTo`, plus the legacy `Moved`, `Spun`, `Landed` and `DescendedTo`. The lemmas state what the game promises about those functions:
  - spawning settles a piece or ends the game;
  - moves are undoable;
  - a lock clears every full row;
  - each legacy rule agrees with, or differs from, the modular one exactly where the sources differ.
- `Scores`: the score manager. It covers the running and high score, the combo formula, the ranking (a stable descending sort), top-N, and statistics.

Time is an integer millisecond parameter `now`, standing for `time.time()` × 1000. Each random piece choice is a parameter (`k1`, `k2`), which must lie in the allowed set.

The modular `GameState.spawn_piece` puts the piece at column (piece width) div 2, row 0 (`src/core/game_state.py:46-49`; `test/test_game_state.py:121-124`). The engines' `spawn_new_piece` centres it on the board instead.

## Model

| member | source | states |
|---|---|---|
| Shapes.StateCount | src/tetris_main.py:47-109 | I, S and Z have 2 states, O has 1, and T, J and L have 4 |
| Shapes.StatesAreShapes | src/tetris_main.py:47-109 | every state is a non-empty rectangular 0/1 matrix of at most 4×4 |
| Shapes.StatesDiffer | src/tetris_main.py:47-109 | consecutive rotation states of a kind are different matrices |
| Shapes.StatesTopRowOccupied | src/tetris_main.py:47-109 | every state has a filled cell in its top row |
| Shapes.EveryKindListed | src/core/game_engine.py:37 | every kind is in the list that new pieces are drawn from |
| Pieces.NextRotationCycles | src/core/piece.py:20-34 | one rotation steps the index to (r+1) mod the state count, and it stays in range |
| Pieces.RotateTimesAdd | src/core/piece.py:20-34 | rotating a times and then b times equals rotating a+b times |
| Pieces.RotateTimesInRange | src/core/piece.py:27-32 | any number of rotations keeps the index inside the kind's table |
| Pieces.FullCycle | src/core/piece.py:20-34 | as many rotations as the kind has states return to the start |
| Pieces.CycleClosure | src/core/piece.py:20-34 | four rotations restore T, S, Z, J and L; two restore I, S and Z; O never moves |
| Pieces.OStaysPut | src/core/piece.py:22-23 | rotating an O piece any number of times keeps its rotation |
| Pieces.Entered | src/core/piece.py:14-18 | a fresh piece value sits in the table with a well-formed shape |
| Pieces.Piece.constructor | src/core/piece.py:14-18 | a new piece has rotation 0, the kind's state 0 as shape, and the kind's colour |
| Pieces.Piece.Rotate | src/core/piece.py:20-34 | always returns true, advances the rotation cyclically with the shape matching the table, and leaves O unchanged |
| Pieces.Piece.GetShape | src/core/piece.py:36-38 | the returned shape is a well-formed matrix |
| Pieces.Piece.Width | src/core/piece.py:44-46 | the width is between 1 and 4 |
| Pieces.Piece.Height | src/core/piece.py:48-50 | the height is between 1 and 4 |
| Pieces.Piece.Dimensions | src/core/piece.py:40-42 | the pair is the columns of the top row and the number of rows, each between 1 and 4 |
| Pieces.SpawnDimensions | src/core/piece.py:40-42 | new I, O and T pieces measure 4×1, 2×2 and 3×2 |
| Boards.EmptyRows | src/core/board.py:75-77 | the grid has the requested number of rows, the requested width, and only empty cells |
| Boards.Board.constructor | src/core/board.py:14-17 | a new board is height rows of width empty cells |
| Boards.Board.IsValidPosition | src/core/board.py:19-36 | true exactly when every filled cell is inside the columns, above the floor, and unoccupied when at row 0 or below; cells above the top skip the occupancy check |
| Boards.Board.PlacePiece | src/core/board.py:38-51 | returns validity; when valid the grid becomes the stamped grid, and otherwise the grid is unchanged |
| Boards.StampWritesShape | src/core/board.py:43-51 | stamping keeps the dimensions, writes the colour into every covered in-range cell, and changes no other cell |
| Boards.Board.ClearLines | src/core/board.py:53-68 | returns the number of full rows, and the grid becomes the compacted grid |
| Boards.CompactedShape | src/core/board.py:53-68 | the compacted grid keeps the dimensions and has no full row |
| Boards.NoFullRowsKeepsGrid | src/core/board.py:53-68 | with no full row, nothing is cleared and the grid is unchanged |
| Boards.KeptOfAppend | src/core/board.py:58-66 | the kept rows and the full-row count distribute over concatenation |
| Boards.ClearBottomRow | src/core/board.py:56-66 | a grid whose only full row is the bottom one shifts down under one new empty row |
| Boards.ClearIdempotent | src/core/board.py:58-66 | after compaction nothing is full, and compacting again changes nothing |
| Boards.ScanSweeps | src/core/board.py:58-66 | the bottom-up scan started at any row reaches the compacted grid and the full-row count |
| Boards.SweptCompacts | src/core/board.py:56-66 | the whole scan from the bottom row gives the compacted grid and the full-row count |
| Boards.Kept | src/core/board.py:59-61 | the kept rows are non-full rows of the grid, and there are no more of them than rows |
| Boards.FullCount | src/core/board.py:59-64 | the full rows plus the kept rows make up every row |
| Boards.Board.IsGameOver | src/core/board.py:70-73 | true exactly when row 0 has an occupied cell |
| Collision.FirstFitMeaning | src/core/collision.py:36-40 | the search returns the first offset at which the piece fits, and none only when no offset fits |
| Collision.KickTargetMeaning | src/core/collision.py:36-43 | the kick moves to the first fitting offset, or keeps the original position when none fits |
| Collision.KickTargetFits | src/core/collision.py:36-43 | the kicked position is valid whenever any offset is |
| Collision.IsValidPosition | src/core/collision.py:18-20 | equals the board's validity check |
| Collision.TryWallKickWith | src/core/collision.py:36-43 | the loop over an offset list returns the first-fit target and leaves the piece and board alone |
| Collision.TryWallKick | src/core/collision.py:22-43 | the wall kick over the eight offsets in source order |
| Collision.RotationTarget | src/core/collision.py:54-61 | a target is always a valid position, and the current position is chosen when the rotated shape fits there |
| Collision.RotationRefusedIff | src/core/collision.py:54-66 | rotation is refused exactly when the rotated shape fits neither in place nor at any offset |
| Collision.CanRotate | src/core/collision.py:45-66 | on success the piece stays rotated at the returned valid position; on failure it returns the original position, with the rotation and shape restored |
| GameConfig.BaseScore | src/config/game_config.py:41-42 | the base score is positive exactly for 1 to 4 lines |
| GameConfig.BaseScoreIncreasing | src/config/game_config.py:41 | more lines (1 to 4) give a strictly larger base score |
| GameConfig.Score | src/config/game_config.py:32-42 | a line count outside 1 to 4 scores 0, and 1 to 4 lines at a positive level score at least 100 per level |
| GameConfig.ScoreValues | src/config/game_config.py:41-42 | 1 line at level 1 gives 100, 4 lines at level 1 give 800, and 2 lines at level 3 give 900; 0 and 5 lines give 0 |
| GameConfig.ScoreMonotone | src/config/game_config.py:39-42 | the score grows strictly with lines and weakly with level |
| GameConfig.Level | src/config/game_config.py:44-47 | the level l is the one with 10(l-1) ≤ lines < 10l |
| GameConfig.LevelValues | src/config/game_config.py:47 | 0, 9, 10 and 25 lines give levels 1, 1, 2 and 3 |
| GameConfig.LevelMonotone | src/config/game_config.py:47 | the level never decreases as lines grow |
| GameConfig.DropDelay | src/config/game_config.py:50-63 | the delay is at least 100 ms, and exactly 100 from level 10 on |
| GameConfig.DropDelayValues | src/config/game_config.py:55-60 | levels 1, 2, 3, 10 and 15 give 1000, 900, 800, 100 and 100 |
| GameConfig.DropDelayNonIncreasing | src/config/game_config.py:50-63 | a higher level never has a longer delay |
| LegacyConfig.DropDelay | src/config.py:56-60 | the delay lies between 100 and 1000, and is exactly 100 from level 19 on |
| LegacyConfig.DropDelayNonIncreasing | src/config.py:56-60 | a higher level never has a longer delay |
| LegacyConfig.Score | src/config.py:62-68 | a line count outside 1 to 4 earns only the level and combo bonuses, and 1 to 4 lines earn at least 100 more than the bonuses |
| LegacyConfig.ScoreValues | src/config.py:62-68 | clearing nothing still earns 10 per level; 1 and 4 lines at level 1 give 110 and 810; 4 lines always beat 1 line by 700 |
| LegacyConfig.Level | src/config.py:70-73 | the level never exceeds 20, is at least 1, brackets the lines below the cap, and is 20 from 190 lines on |
| LegacyConfig.LevelMonotone | src/config.py:70-73 | the level never decreases as lines grow |
| LegacyConfig.ScoreSequence | src/config.py:62-73 | from 0 at level 1, clearing 1 line and then 4 lines gives 110 and then 920 |
| Levels.GetLevelConfig | src/level_config.py:348-351 | an entry exists exactly for ids 1 to 20, and it is that row of the table |
| Levels.TotalLevels | src/level_config.py:353-356 | there are 20 levels |
| Levels.GetUnlockCondition | src/level_config.py:358-362 | an unknown id gives "none" |
| Levels.GetStarRequirements | src/level_config.py:364-368 | an unknown id gives no requirements, and a known one has three |
| Levels.LastField | src/level_config.py:384 | the field is an underscore-free suffix that follows the last underscore |
| Levels.ParseNat | src/level_config.py:384 | parses exactly the non-empty all-digit strings |
| Levels.ParseNatToString | src/level_config.py:384 | parsing the decimal text of n gives n back |
| Levels.CompleteConditionMet | src/level_config.py:383-385 | "complete_level_k" is met exactly when k is among the completed levels |
| Levels.IsLevelUnlocked | src/level_config.py:370-387 | level 1 is always open, and any other id missing from the table is closed |
| Levels.UnlockConditions | src/level_config.py:17-346 | level 1 needs "none", and level n ≥ 2 needs "complete_level_{n-1}" |
| Levels.UnlockedByCondition | src/level_config.py:376-387 | a table level is open exactly when its condition is met |
| Levels.UnlockChain | src/level_config.py:370-387 | level n ≥ 2 is open exactly when level n-1 has been completed |
| Levels.LevelEntryShape | src/level_config.py:17-346 | every entry has three star grades, each with a line threshold; the first threshold equals the target lines, and the thresholds strictly increase |
| Levels.TableWellFormed | src/level_config.py:17-346 | every entry satisfies the well-formedness predicate that the manager relies on |
| Levels.LevelEntryCriteria | src/level_config.py:17-346 | every entry has a non-empty piece list and three grades; a grade has a time criterion exactly when the level has a time limit, and a score criterion exactly when it has none |
| LevelManagers.RecordBest | src/level/level_manager.py:178-184 | the key ends up holding the larger of the old and new value; other keys are untouched |
| LevelManagers.RecordBestIdempotent | src/level/level_manager.py:178-184 | recording a value no better than the stored one changes nothing, and recording twice equals recording once |
| LevelManagers.LevelManager.constructor | src/level/level_manager.py:18-33 | starts at level 1 with no level loaded, no progress, no rules, no clock and no time limit |
| LevelManagers.LevelManager.IsLevelUnlocked | src/level/level_manager.py:56-58 | level 1 is always open, and only ids of the table can be open |
| LevelManagers.UnlockedAsTableSays | src/level/level_manager.py:56-58 | the manager's unlock test equals the table's rule applied to its completed list |
| LevelManagers.LevelManager.LoadLevel | src/level/level_manager.py:35-54 | succeeds exactly for an open table level; on failure nothing changes; on success it takes the entry, rules and time limit, clears the rotation count and starts the clock |
| LevelManagers.LevelManager.AvailablePieceTypes | src/level/level_manager.py:60-65 | all kinds without a level, else the level's non-empty list |
| LevelManagers.LevelManager.TargetLines | src/level/level_manager.py:74-79 | 10 without a level, else the level's target |
| LevelManagers.LevelManager.CheckLevelComplete | src/level/level_manager.py:81-95 | completion needs a loaded level, no overrun of a time limit, and enough lines |
| LevelManagers.LevelManager.CheckStarRequirement | src/level/level_manager.py:113-134 | no level means not met; otherwise every listed criterion is checked, and a time criterion is skipped when no time remains to compare |
| LevelManagers.LevelManager.CalculateStars | src/level/level_manager.py:97-111 | returns the star grade for the given lines, score and remaining time |
| LevelManagers.StarGradesNested | src/level_config.py:17-346 | each star grade of every level demands at least the lines of the grade below |
| LevelManagers.MetRunIsRun | src/level/level_manager.py:105-111 | the counted grades are exactly a leading run of met requirements |
| LevelManagers.StarsIsLeadingRun | src/level/level_manager.py:97-111 | no level gives 0 stars; otherwise the grade is the length of the leading run of met requirements |
| LevelManagers.LevelManager.CheckRuleViolation | src/level/level_manager.py:136-151 | rotating is banned exactly when a cap exists and is reached; down acceleration exactly when the level disables it; any other action never |
| LevelManagers.LevelManager.RecordRotation | src/level/level_manager.py:153-155 | the rotation count goes up by one |
| LevelManagers.LevelManager.TimeRemaining | src/level/level_manager.py:157-164 | none without a limit or a started clock; otherwise the non-negative whole seconds left |
| LevelManagers.LevelManager.IsTimeUp | src/level/level_manager.py:166-171 | true exactly when a limit exists and less than a whole second is left |
| LevelManagers.TimeUpVersusOverrun | src/level/level_manager.py:157-171 | an overrun always counts as time up, and time is up throughout the last second before an overrun, while completion is still accepted then |
| LevelManagers.LevelSevenRotationCap | src/level/level_manager.py:136-145 | on level 7 the first rotation is allowed and the second is banned, and down acceleration is never banned there |
| LevelManagers.LevelManager.CompleteLevel | src/level/level_manager.py:173-187 | the level is recorded as completed at most once, and its best score and stars are kept at their maximum |
| LevelManagers.LevelManager.ResetProgress | src/level/level_manager.py:244-250 | clears the completed list and the best scores and stars, and returns to level 1 |
| LevelManagers.LevelManager.GetNextUnlockedLevel | src/level/level_manager.py:252-257 | the lowest open, not yet completed table level, or none when there is no such level |
| GameStates.GameState.constructor | src/core/game_state.py:15-31 | score 0, level 1, no lines, no pieces, position (0,0), a 1000 ms delay, classic mode and level flags cleared |
| GameStates.GameState.UpdateScore | src/core/game_state.py:33-36 | the score grows by the modular score of the lines, and the lines are added; clearing 0 lines changes neither |
| GameStates.GameState.UpdateLevel | src/core/game_state.py:38-44 | the level follows the lines, and the delay is renewed only when the level changes |
| GameStates.GameState.SpawnPiece | src/core/game_state.py:46-49 | a fresh piece of the kind at rotation 0, placed at half its own width and row 0 |
| GameStates.GameState.SetPiecePosition | src/core/game_state.py:51-57 | reading the position back gives the same pair, negatives included |
| GameStates.GameState.GetPiecePosition | src/core/game_state.py:55-57 | a new or reset state reports the position (0, 0) |
| GameStates.GameState.Reset | src/core/game_state.py:59-74 | every counter returns to its initial value, mode included |
| Engines.SpawnFitsEmptyBoard | src/core/game_engine.py:45-52 | every state of every kind fits at the spawn column of an empty board |
| Engines.FullTopRowBlocksSpawn | src/core/game_engine.py:50-52 | with the top row full, no piece fits at the spawn position |
| Engines.AfterClearKeepsConsistent | src/core/game_engine.py:123-126 | scoring cleared rows keeps the level and delay consistent with the lines, adds the rows, and never lowers the score or the level |
| Engines.SpawnedSettles | src/core/game_engine.py:45-52 | after a spawn there is a current piece, and the game is over exactly when it was already over or the piece does not fit |
| Engines.FreshGameRuns | src/core/game_engine.py:185-190 | a new game is running, with a fitting piece of the first drawn kind and the initial counters |
| Engines.FullTopRowEndsGame | src/core/game_engine.py:50-52 | spawning onto a full top row ends the game |
| Engines.ShiftedKeepsSettled | src/core/game_engine.py:54-70 | a move keeps the piece at a fitting position |
| Engines.ShiftedUndo | src/core/game_engine.py:54-70 | a successful move followed by the opposite move restores the state |
| Engines.ShiftedByNothing | src/core/game_engine.py:54-70 | a (0,0) move of a running game succeeds and changes nothing |
| Engines.TurnedKeepsSettled | src/core/game_engine.py:72-104 | a rotation keeps the piece at a fitting position |
| Engines.TurnedIff | src/core/game_engine.py:72-104 | an allowed rotation of a running piece is refused exactly when the rotated state fits neither in place nor at any kick offset; an accepted one advances the rotation index and fits |
| Engines.TurnedToIff | src/core/game_engine.py:87-96 | the rotate-and-kick step fails exactly when the rotated shape fits nowhere |
| Engines.LockedClears | src/core/game_engine.py:120-126 | a lock keeps the counters consistent, never lowers the score, adds exactly the full rows of the stamped grid, and leaves no full row |
| Engines.PlacedToSettles | src/core/game_engine.py:113-153 | a failed placement changes nothing; one that does not finish the level leaves a settled new piece; one that finishes keeps the pieces and records the stars |
| Engines.FellToKeepsSettled | src/core/game_engine.py:177-181 | a fall step that does not finish the level keeps a settled piece settled |
| Engines.GameEngine.constructor | src/core/game_engine.py:21-29 | a fresh board and state with no level manager |
| Engines.GameEngine.Reserve | src/core/game_engine.py:39-40 | the next piece is drawn when there is none |
| Engines.GameEngine.Promote | src/core/game_engine.py:42-43 | the reserve becomes current and a new reserve is drawn |
| Engines.GameEngine.Enter | src/core/game_engine.py:45-52 | the piece is centred at row 0, and the game ends iff it does not fit |
| Engines.GameEngine.SpawnNewPiece | src/core/game_engine.py:31-52 | the state becomes the spawn transition of the old state |
| Engines.GameEngine.HandlePieceMovement | src/core/game_engine.py:54-70 | the result and the new state are the move transition of the old state |
| Engines.GameEngine.HandlePieceRotation | src/core/game_engine.py:72-104 | the result and the new state are the rotation transition, with the level's rotation ban; a rotation is counted only on success in level mode |
| Engines.GameEngine.DropPiece | src/core/game_engine.py:106-111 | a drop is the move (0,+1) |
| Engines.GameEngine.StampPiece | src/core/game_engine.py:118-121 | placement succeeds exactly when the piece fits, and only then is the grid stamped |
| Engines.GameEngine.ClearAndScore | src/core/game_engine.py:122-126 | full rows are cleared, and the counters are scored by the cleared count |
| Engines.GameEngine.ScoreRows | src/core/game_engine.py:124-126 | the counters change only when rows were cleared |
| Engines.GameEngine.LockPiece | src/core/game_engine.py:113-126 | the state becomes the lock transition |
| Engines.GameEngine.FlagComplete | src/core/game_engine.py:148-149 | sets the level-complete flag and the stars |
| Engines.GameEngine.FinishLevel | src/core/game_engine.py:133-149 | computes the stars, records the completion, and flags the level |
| Engines.GameEngine.Conclude | src/core/game_engine.py:128-153 | either the level completes with its stars, or the next piece spawns |
| Engines.GameEngine.PlaceCurrentPiece | src/core/game_engine.py:113-153 | the new state is the placement relation of the old one; a failed placement changes nothing |
| Engines.GameEngine.Fall | src/core/game_engine.py:177-183 | one drop, or a lock when the drop fails, with the clock renewed |
| Engines.GameEngine.Update | src/core/game_engine.py:155-183 | no-op when paused or over; a time-out only flags failure; otherwise one fall once the delay has passed |
| Engines.GameEngine.FailLevel | src/core/game_engine.py:164 | only the level-failed flag changes |
| Engines.GameEngine.Advance | src/core/game_engine.py:167-183 | before the delay nothing changes; after it, one fall |
| Engines.GameEngine.ResetGame | src/core/game_engine.py:185-190 | a new board and counters, with a freshly spawned piece |
| OptimizedEngines.DroppedToIsFall | src/core/optimized_game_engine.py:173-176 | the optimized drop relation equals the modular fall relation |
| OptimizedEngines.PausedDropPlaces | src/core/optimized_game_engine.py:173-176 | a drop while paused locks the piece where it stands, because the refused move counts as failure |
| OptimizedEngines.OptimizedEngine.constructor | src/core/optimized_game_engine.py:24-50 | a fresh board, state and level manager with nothing loaded |
| OptimizedEngines.OptimizedEngine.Reserve | src/core/optimized_game_engine.py:74-75 | the next piece is drawn when there is none |
| OptimizedEngines.OptimizedEngine.Promote | src/core/optimized_game_engine.py:77-78 | the reserve becomes current and a new reserve is drawn |
| OptimizedEngines.OptimizedEngine.Enter | src/core/optimized_game_engine.py:80-87 | the piece is centred at row 0, and the game ends iff it does not fit |
| OptimizedEngines.OptimizedEngine.SpawnNewPiece | src/core/optimized_game_engine.py:66-87 | the state becomes the spawn transition |
| OptimizedEngines.OptimizedEngine.MovePiece | src/core/optimized_game_engine.py:124-139 | the result and the new state are the move transition |
| OptimizedEngines.OptimizedEngine.RotatePiece | src/core/optimized_game_engine.py:141-171 | the rotation transition with the level's ban, counted only on success in level mode |
| OptimizedEngines.OptimizedEngine.StampPiece | src/core/optimized_game_engine.py:183-186 | placement succeeds exactly when the piece fits |
| OptimizedEngines.OptimizedEngine.ClearAndScore | src/core/optimized_game_engine.py:188-191 | full rows are cleared and scored |
| OptimizedEngines.OptimizedEngine.ScoreRows | src/core/optimized_game_engine.py:189-191 | the counters change only when rows were cleared |
| OptimizedEngines.OptimizedEngine.LockPiece | src/core/optimized_game_engine.py:178-191 | the state becomes the lock transition |
| OptimizedEngines.OptimizedEngine.FlagComplete | src/core/optimized_game_engine.py:213-214 | sets the level-complete flag and the stars |
| OptimizedEngines.OptimizedEngine.FinishLevel | src/core/optimized_game_engine.py:198-214 | computes the stars, records the completion, and flags the level |
| OptimizedEngines.OptimizedEngine.Conclude | src/core/optimized_game_engine.py:193-218 | either the level completes, or the next piece spawns |
| OptimizedEngines.OptimizedEngine.PlaceCurrentPiece | src/core/optimized_game_engine.py:178-218 | the placement relation, with nothing changed when placement fails |
| OptimizedEngines.OptimizedEngine.DropPiece | src/core/optimized_game_engine.py:173-176 | moves down, or locks exactly when the move down fails |
| OptimizedEngines.OptimizedEngine.Update | src/core/optimized_game_engine.py:220-231 | no-op when paused, over or not yet due; otherwise one drop |
| OptimizedEngines.OptimizedEngine.Fall | src/core/optimized_game_engine.py:229-231 | one drop with the clock renewed |
| OptimizedEngines.OptimizedEngine.ResetGame | src/core/optimized_game_engine.py:278-283 | a new board and state, with a freshly spawned piece |
| Legacy.TalliedKeepsAgreeing | src/tetris_main.py:651-653 | legacy scoring keeps the level capped and consistent with the lines |
| Legacy.MovedAgainstShifted | src/tetris_main.py:522-534 | a legacy move equals the modular one in a running game, but a game-over legacy game still moves |
| Legacy.SpunIff | src/tetris_main.py:536-576 | a legacy rotation is refused exactly when paused, banned, or no target of the five offsets fits |
| Legacy.FirstFitPrefix | src/tetris_main.py:559-566 | when the first fit lies in a prefix of the offsets, searching the prefix finds the same one |
| Legacy.RotationTargetPrefix | src/tetris_main.py:556-566 | the five-offset target equals the eight-offset target whenever the latter is found among the first five |
| Legacy.SpunAgreesWithTurned | src/tetris_main.py:556-571 | when the target lies among the first five offsets, the legacy rotation equals the modular one |
| Legacy.LandedLikeLocked | src/tetris_main.py:644-653 | a legacy lock leaves the same grid and lines as a modular lock |
| Legacy.DescendedSettles | src/tetris_main.py:643-682 | a legacy fall that does not complete the level leaves a current piece that fits, or a game that is over |
| Legacy.Kick | src/tetris_main.py:559-566 | the loop finds the first fitting offset in order |
| Legacy.KickDecides | src/tetris_main.py:556-571 | the rotation target is found exactly when the loop reports one, and it is that position |
| Legacy.Settle | src/tetris_main.py:556-573 | commits the rotated piece at the target, or restores the rotation and the table shape |
| Legacy.Reorient | src/tetris_main.py:547-573 | succeeds exactly when a target exists; the rotation advances on success and is unchanged on failure |
| Legacy.GameState.constructor | src/tetris_main.py:218-236 | the legacy counters start at score 0 and level 1 with no pieces |
| Legacy.GameState.UpdateScore | src/tetris_main.py:238-241 | the score grows by the legacy formula (base plus 10 per level) |
| Legacy.GameState.UpdateLevel | src/tetris_main.py:243-249 | the level follows the capped rule, and the delay is renewed only when the level changes |
| Legacy.GameState.SpawnPiece | src/tetris_main.py:251-259 | a fresh piece at half its width and row 0; the game ends iff it does not fit |
| Legacy.TetrisGame.constructor | src/tetris_main.py:412-452 | a fresh board and state wired together, with the first piece spawned |
| Legacy.TetrisGame.Reserve | src/tetris_main.py:464-465 | the next piece is drawn when there is none |
| Legacy.TetrisGame.Promote | src/tetris_main.py:467-468 | the reserve becomes current and a new reserve is drawn |
| Legacy.TetrisGame.Enter | src/tetris_main.py:469-475 | the piece is centred at row 0, and the game ends iff it does not fit |
| Legacy.TetrisGame.SpawnNewPiece | src/tetris_main.py:454-475 | the state becomes the spawn transition |
| Legacy.TetrisGame.MovePiece | src/tetris_main.py:522-534 | the result and the new state are the legacy move transition |
| Legacy.TetrisGame.RotatePiece | src/tetris_main.py:536-576 | the legacy rotation transition; in level mode a rotation is counted even when it fails |
| Legacy.TetrisGame.Turn | src/tetris_main.py:547-573 | counts the rotation, then rotates with the five-offset kick or restores |
| Legacy.TetrisGame.StampPiece | src/tetris_main.py:646-647 | the grid is stamped exactly when the piece fits |
| Legacy.TetrisGame.ClearAndScore | src/tetris_main.py:650-653 | full rows are cleared and scored by the legacy formula |
| Legacy.TetrisGame.ScoreRows | src/tetris_main.py:651-653 | the counters change only when rows were cleared |
| Legacy.TetrisGame.LockPiece | src/tetris_main.py:646-653 | the state becomes the legacy lock transition |
| Legacy.TetrisGame.FlagComplete | src/tetris_main.py:675-676 | sets the level-complete flag and the stars |
| Legacy.TetrisGame.FinishLevel | src/tetris_main.py:660-676 | computes the stars, records the completion, and flags the level |
| Legacy.TetrisGame.Conclude | src/tetris_main.py:655-682 | either the level completes and the clock is not renewed, or the next piece spawns and the clock is renewed |
| Legacy.TetrisGame.Continue | src/tetris_main.py:679-682 | spawns the next piece and renews the clock |
| Legacy.TetrisGame.Land | src/tetris_main.py:644-682 | the lock, then the level check or a spawn |
| Legacy.TetrisGame.Fall | src/tetris_main.py:643-682 | one move down, or a landing when it fails |
| Legacy.TetrisGame.Update | src/tetris_main.py:624-682 | no-op when paused or over; a time-out flags failure; otherwise one fall once the delay has passed |
| Legacy.TetrisGame.ResetGame | src/tetris_main.py:701-707 | a new board and counters, with a freshly spawned piece |
| Scores.CalculateScore | src/core/score_manager.py:42-69 | lines outside 1 to 4 earn only the combo bonus; with no combo it equals the modular score |
| Scores.CalculateScoreValues | src/core/score_manager.py:55-69 | (4,3,2) gives 2700, (1,1,0) gives 100, (2,2,1) gives 700, and (0,5,0) gives 0 |
| Scores.CalculateScoreGrows | src/core/score_manager.py:55-69 | each combo step adds 50 per level, and more lines give strictly more |
| Scores.Insert | src/core/score_manager.py:131-146 | the insertion adds exactly the one entry |
| Scores.Ranked | src/core/score_manager.py:131-146 | the ranking is a permutation of the history |
| Scores.InsertKeepsOrder | src/core/score_manager.py:131-146 | inserting into a descending list keeps it descending |
| Scores.InsertWithScore | src/core/score_manager.py:131-146 | among the entries of any one score, an insertion puts the new entry before the existing ones and leaves the other scores' entries as they were |
| Scores.RankedIsSorted | src/core/score_manager.py:131-146 | the ranking is in non-increasing score order |
| Scores.RankedIsStable | src/core/score_manager.py:112-129 | entries of equal score keep their history order, as Python's stable sort does |
| Scores.Take | src/core/score_manager.py:129 | Python slicing to n: a prefix of length min(n, length), or length+n for negative n |
| Scores.TakeKeepsTheBest | src/core/score_manager.py:131-146 | every game a prefix of the ranking leaves out scores no higher than any game it keeps |
| Scores.TopScoresMeaning | src/core/score_manager.py:131-146 | the top n are descending, drawn from the history, min(n, length) long for n ≥ 0, led by the best score, and no game left out scores higher than one kept |
| Scores.MaxScore | src/core/score_manager.py:182-206 | bounds every score from above and is attained |
| Scores.MinScore | src/core/score_manager.py:182-206 | bounds every score from below and is attained |
| Scores.Summary | src/core/score_manager.py:182-206 | counts the games and sums the scores; all zeros on an empty history; lowest ≤ highest |
| Scores.SumScoresAppend | src/core/score_manager.py:182-206 | appending an entry adds its score to the total |
| Scores.MaxAtMostSum | src/core/score_manager.py:182-206 | for non-negative scores, the highest never exceeds the total |
| Scores.ScoreManager.constructor | src/core/score_manager.py:16-27 | current score 0, with the loaded history and high score |
| Scores.ScoreManager.AddScore | src/core/score_manager.py:29-40 | the current score grows by the points; the high score becomes the larger of the two and never falls |
| Scores.ScoreManager.ResetCurrentScore | src/core/score_manager.py:71-73 | the current score is 0, and the high score is untouched |
| Scores.ScoreManager.SaveScore | src/core/score_manager.py:75-92 | appends one entry with the current score, and the total grows by it |
| Scores.ScoreManager.ClearHistory | src/core/score_manager.py:148-151 | the history is empty, and so the statistics are all zeros |
| Scores.ScoreManager.GetScoreHistory | src/core/score_manager.py:112-129 | without a limit, the whole history; with one, min(limit, length) entries from the history in descending order, none left out scoring higher than one returned |
| Scores.ScoreManager.GetTopScores | src/core/score_manager.py:131-146 | min(count, length) entries, descending, from the history, led by the best, none left out scoring higher than one returned; the same as the history with that limit |
| Scores.ScoreManager.GetStatistics | src/core/score_manager.py:182-206 | games, total, highest and lowest, with every score between lowest and highest |

## Left out

- Rendering, fonts, menus, level selection, input handling with key repeat, and performance telemetry: these are drawing and timing code, not game rules.
- Persistence: level progress (`save_progress`, `load_progress`) and the score file are not modelled. The level manager starts with empty progress. The score manager's constructor takes the loaded history and high score as parameters, and the time stamps of a saved entry are parameters too.
- Clock and randomness: `time.time()` is the integer millisecond parameter `now`, and `random.choice` is the caller-supplied kind `k1`/`k2`, which must be allowed.
- GameConfig.DropDelay: models the documented integer curve max(100, 1000 − 100·(level − 1)). The source truncates a float product, which can be off by one at untested levels (for example level 8).
- LevelManagers.LevelManager.TimeRemaining: models the whole-second truncation with integer division of milliseconds. This matches Python's `int()` for clocks that are exact to the millisecond.
- Levels.ConditionMet: treats a "complete_level_" condition whose last field is not a number as not met, where the source's `int()` raises ValueError (`src/level_config.py:384`). No table entry has such a condition (`Levels.UnlockConditions`), so this case never arises from the table.
- Levels.ParseNat: reads only the digits after the last underscore. The whitespace and sign handling of Python's `int()` is not modelled.
- Floats: `speed_multiplier`, and the average score in the statistics.
- Level manager extras: `get_level_info`, `get_progress_summary` and the game-mode field carry no game rule and are left out.
- The optimized `update` also calls level-manager methods `update` and `check_level_failed`, which the manager does not define (`src/core/optimized_game_engine.py:233-239`). Only the drop part of `update` is modelled.
- Level manager wiring: the legacy engine creates its level manager inside a guarded import (`src/tetris_main.py:424-428`), and a failed import leaves it null. The model makes the manager a parameter of the legacy constructor, which may be null. The optimized engine guards its import the same way (`src/core/optimized_game_engine.py:46-50`); its model takes the import to succeed and always creates a manager. The modular engine has no guarded import: it starts with no manager, so that one can be injected later (`src/core/game_engine.py:28-29`).
- Engines.GameEngine.Fall: records the fall time before the fall, where the source records it after. Nothing between the two reads it.
- Legacy.TetrisGame.Turn: counts the rotation just before rotating, where the source counts it just after. Nothing between the two reads the count.
- Legacy.TetrisGame.RotatePiece: the source catches any exception and returns false when there is no current piece. The model requires a current piece, which every legacy game has after construction.
- Legacy.TetrisGame.TimedOut: requires a started level clock. With a time limit and no start time, the source would compare None with a number and raise.
- Boards.Board.ClearLines: requires a positive width, because on a zero-width board every row is full and the source loop never ends.
- Boards.Board.IsGameOver: requires a positive height, because the source indexes row 0.
- ScoreManager `add_score` takes level and line parameters that it never uses, so the model omits them.
- JSON key conversion on saved progress is left out with persistence.
