/**
 * The tunables of the single-file game (src/config.py): a slower speed-up,
 * a level cap, and a score that adds a level bonus and a combo bonus to the
 * base points instead of multiplying.
 */
module LegacyConfig {
  import GameConfig

  const BOARD_WIDTH: nat := 10
  const BOARD_HEIGHT: nat := 20
  const BASE_DROP_DELAY: int := 1000
  const LEVEL_SPEED_INCREASE: int := 50
  const MIN_DROP_DELAY: int := 100
  const LEVEL_BONUS_MULTIPLIER: int := 10
  const COMBO_BONUS: int := 50
  const LINES_PER_LEVEL: int := 10
  const MAX_LEVEL: int := 20

  /** 1000 ms less 50 ms per level above the first, never below 100 ms. */
  function DropDelay(level: int): (d: int)
    ensures d >= MIN_DROP_DELAY
    ensures level >= 19 ==> d == MIN_DROP_DELAY
    ensures level >= 1 ==> d <= BASE_DROP_DELAY
  {
    var delay := BASE_DROP_DELAY - (level - 1) * LEVEL_SPEED_INCREASE;
    if delay > MIN_DROP_DELAY then delay else MIN_DROP_DELAY
  }

  lemma DropDelayNonIncreasing(a: int, b: int)
    requires a <= b
    ensures DropDelay(b) <= DropDelay(a)
  {
  }

  /** Base points for the rows (the same table as the modular engine), plus
      10 per level and 50 per combo step. */
  function Score(linesCleared: int, level: int, combo: int): (s: int)
    ensures !(1 <= linesCleared <= 4) ==> s == 10 * level + 50 * combo
    ensures 1 <= linesCleared <= 4 ==> s >= 100 + 10 * level + 50 * combo
  {
    GameConfig.BaseScore(linesCleared) + level * LEVEL_BONUS_MULTIPLIER + combo * COMBO_BONUS
  }

  /** Even a drop that clears nothing earns the level bonus, and the score
      differs from the base points by exactly the two bonuses. */
  lemma ScoreValues(level: int, combo: int)
    ensures Score(0, level, 0) == 10 * level
    ensures Score(1, 1, 0) == 110 && Score(4, 1, 0) == 810
    ensures Score(4, level, combo) - Score(1, level, combo) == 700
  {
  }

  /** The level after `linesCleared` rows: one per ten rows, capped at 20. */
  function Level(linesCleared: int): (level: int)
    ensures level <= MAX_LEVEL
    ensures linesCleared >= 0 ==> 1 <= level
    ensures level < MAX_LEVEL ==> 10 * (level - 1) <= linesCleared < 10 * level
    ensures linesCleared >= 190 ==> level == MAX_LEVEL
  {
    var l := linesCleared / LINES_PER_LEVEL + 1;
    if l < MAX_LEVEL then l else MAX_LEVEL
  }

  lemma LevelMonotone(a: int, b: int)
    requires a <= b
    ensures Level(a) <= Level(b)
  {
  }

  /** From score 0 at level 1, clearing one row and then four gives 110 and
      then 920: five rows are still level 1. */
  lemma ScoreSequence()
    ensures var s1 := 0 + Score(1, Level(0), 0);
            var s2 := s1 + Score(4, Level(1), 0);
            s1 == 110 && Level(5) == 1 && s2 == 920
  {
  }
}
