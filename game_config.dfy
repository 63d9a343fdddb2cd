/**
 * Scoring, levelling and fall speed of the modular engine
 * (src/config/game_config.py).
 */
module GameConfig {

  const BOARD_WIDTH: nat := 10
  const BOARD_HEIGHT: nat := 20

  /** Points for clearing `n` rows at once before any multiplier: 100, 300,
      500 and 800 for one to four rows, nothing for any other count. */
  function BaseScore(n: int): (b: nat)
    ensures (1 <= n <= 4) == (b > 0)
  {
    if n == 1 then 100
    else if n == 2 then 300
    else if n == 3 then 500
    else if n == 4 then 800
    else 0
  }

  /** Clearing more rows at once is always worth strictly more. */
  lemma BaseScoreIncreasing(n: int, m: int)
    requires 1 <= n < m <= 4
    ensures BaseScore(n) < BaseScore(m)
  {
  }

  /** The base points multiplied by the level. */
  function Score(linesCleared: int, level: int): (s: int)
    ensures !(1 <= linesCleared <= 4) ==> s == 0
    ensures 1 <= linesCleared <= 4 && level > 0 ==> s >= 100 * level
  {
    BaseScore(linesCleared) * level
  }

  lemma ScoreValues()
    ensures Score(1, 1) == 100 && Score(4, 1) == 800 && Score(2, 3) == 900
    ensures forall level :: Score(0, level) == 0 && Score(5, level) == 0
  {
  }

  /** At a positive level the score grows with the rows cleared and with the
      level. */
  lemma ScoreMonotone(n: int, m: int, level: int, level2: int)
    requires 1 <= n < m <= 4 && 0 < level <= level2
    ensures Score(n, level) < Score(m, level)
    ensures Score(n, level) <= Score(n, level2)
  {
    BaseScoreIncreasing(n, m);
    MulStrict(BaseScore(n), BaseScore(m), level);
    MulMonotone(BaseScore(n), level, level2);
  }

  lemma MulStrict(a: int, b: int, c: int)
    requires a < b && c > 0
    ensures a * c < b * c
  {
    assert b * c == a * c + (b - a) * c;
    MulPositive(b - a, c);
  }

  lemma MulMonotone(a: nat, c: int, d: int)
    requires c <= d
    ensures a * c <= a * d
  {
    assert a * d == a * c + a * (d - c);
    MulNonNegative(a, d - c);
  }

  lemma MulPositive(a: int, b: int)
    requires a > 0 && b > 0
    ensures a * b > 0
  {
  }

  lemma MulNonNegative(a: int, b: int)
    requires a >= 0 && b >= 0
    ensures a * b >= 0
  {
  }

  /** One level per ten rows, starting at level 1. */
  function Level(linesCleared: int): (level: int)
    ensures 10 * (level - 1) <= linesCleared < 10 * level
  {
    linesCleared / 10 + 1
  }

  lemma LevelValues()
    ensures Level(0) == 1 && Level(9) == 1 && Level(10) == 2 && Level(25) == 3
  {
  }

  /** More rows never mean a lower level. */
  lemma LevelMonotone(a: int, b: int)
    requires a <= b
    ensures Level(a) <= Level(b)
  {
  }

  /** The automatic fall interval in milliseconds: 1000 at level 1, 100 less
      per level, and never below 100. */
  function DropDelay(level: int): (d: int)
    ensures d >= 100
    ensures level >= 10 ==> d == 100
  {
    if 1000 - 100 * (level - 1) > 100 then 1000 - 100 * (level - 1) else 100
  }

  lemma DropDelayValues()
    ensures DropDelay(1) == 1000 && DropDelay(2) == 900 && DropDelay(3) == 800
    ensures DropDelay(10) == 100 && DropDelay(15) == 100
  {
  }

  /** Higher levels fall at least as fast. */
  lemma DropDelayNonIncreasing(a: int, b: int)
    requires a <= b
    ensures DropDelay(b) <= DropDelay(a)
  {
  }
}
