/**
 * The twenty levels of the level mode and their unlock rule
 * (src/level_config.py). The table is constant; the queries look it up by
 * level id and read unlock conditions of the form "complete_level_<k>".
 */
module Levels {
  import opened Wrappers
  import opened Shapes

  /** The special rules a level may switch on. Only the rotation cap and the
      acceleration ban are enforced by the rule engine; the other flags are
      carried as the table sets them. */
  datatype SpecialRules = SpecialRules(
    maxRotations: Option<int>,
    disableDownAcceleration: bool,
    timeLimit: bool,
    exactLinesRequired: bool,
    reverseControls: bool,
    ultimateMode: bool,
    legendaryMode: bool)

  const NO_RULES := SpecialRules(None, false, false, false, false, false, false)

  /** What one star grade asks for; an absent criterion is not checked. */
  datatype StarRequirement = StarRequirement(lines: Option<int>, score: Option<int>, timeRemaining: Option<int>)

  function Scored(lines: int, score: int): StarRequirement
  {
    StarRequirement(Some(lines), Some(score), None)
  }

  function Timed(lines: int, seconds: int): StarRequirement
  {
    StarRequirement(Some(lines), None, Some(seconds))
  }

  /** One level: its target, optional time limit in seconds, the piece kinds
      it draws from, its rules, its unlock condition and its 1-, 2- and 3-star
      requirements in that order. (Names are in `LevelName`.) */
  datatype LevelEntry = LevelEntry(
    targetLines: int,
    timeLimit: Option<int>,
    pieceTypes: seq<Kind>,
    specialRules: SpecialRules,
    unlockCondition: string,
    starRequirements: seq<StarRequirement>)

  /** Levels 1 to 20, level `i` at index `i - 1`. */
  const LEVELS: seq<LevelEntry> := [
    // 1: Beginner
    LevelEntry(5, None, ALL_KINDS,
               NO_RULES,
               "none", [Scored(5, 500), Scored(8, 1000), Scored(12, 1500)]),
    // 2: Basic Practice
    LevelEntry(8, None, ALL_KINDS,
               NO_RULES,
               UNLOCK_PREFIX + "1", [Scored(8, 800), Scored(12, 1500), Scored(18, 2500)]),
    // 3: Speed Up
    LevelEntry(10, None, ALL_KINDS,
               NO_RULES,
               UNLOCK_PREFIX + "2", [Scored(10, 1000), Scored(15, 2000), Scored(22, 3500)]),
    // 4: Quick Reaction
    LevelEntry(12, None, ALL_KINDS,
               NO_RULES,
               UNLOCK_PREFIX + "3", [Scored(12, 1200), Scored(18, 2500), Scored(25, 4000)]),
    // 5: Intermediate Challenge
    LevelEntry(15, None, ALL_KINDS,
               NO_RULES,
               UNLOCK_PREFIX + "4", [Scored(15, 1500), Scored(22, 3000), Scored(30, 5000)]),
    // 6: Piece Restriction
    LevelEntry(15, None, [I, O, T, S, Z],
               NO_RULES,
               UNLOCK_PREFIX + "5", [Scored(15, 1500), Scored(22, 3000), Scored(30, 5000)]),
    // 7: Rotation Limit
    LevelEntry(15, None, ALL_KINDS,
               NO_RULES.(maxRotations := Some(1)),
               UNLOCK_PREFIX + "6", [Scored(15, 1500), Scored(22, 3000), Scored(30, 5000)]),
    // 8: High Speed Mode
    LevelEntry(18, None, ALL_KINDS,
               NO_RULES,
               UNLOCK_PREFIX + "7", [Scored(18, 1800), Scored(25, 3500), Scored(35, 6000)]),
    // 9: Precise Control
    LevelEntry(18, None, [I, T, S, Z],
               NO_RULES,
               UNLOCK_PREFIX + "8", [Scored(18, 1800), Scored(25, 3500), Scored(35, 6000)]),
    // 10: No Acceleration Challenge
    LevelEntry(20, None, ALL_KINDS,
               NO_RULES.(disableDownAcceleration := true),
               UNLOCK_PREFIX + "9", [Scored(20, 2000), Scored(28, 4000), Scored(38, 7000)]),
    // 11: Time Challenge
    LevelEntry(15, Some(120), ALL_KINDS,
               NO_RULES.(timeLimit := true),
               UNLOCK_PREFIX + "10", [Timed(15, 30), Timed(20, 60), Timed(25, 90)]),
    // 12: Ultra Speed Mode
    LevelEntry(20, None, ALL_KINDS,
               NO_RULES,
               UNLOCK_PREFIX + "11", [Scored(20, 2000), Scored(28, 4000), Scored(38, 7000)]),
    // 13: Specific Target
    LevelEntry(25, None, ALL_KINDS,
               NO_RULES.(exactLinesRequired := true),
               UNLOCK_PREFIX + "12", [Scored(25, 2500), Scored(32, 4500), Scored(40, 7500)]),
    // 14: Piece Master
    LevelEntry(22, None, [I, O],
               NO_RULES,
               UNLOCK_PREFIX + "13", [Scored(22, 2200), Scored(30, 4500), Scored(38, 7500)]),
    // 15: Advanced Challenge
    LevelEntry(25, None, ALL_KINDS,
               NO_RULES.(maxRotations := Some(2)),
               UNLOCK_PREFIX + "14", [Scored(25, 2500), Scored(32, 5000), Scored(40, 8000)]),
    // 16: Time Master
    LevelEntry(20, Some(90), ALL_KINDS,
               NO_RULES.(timeLimit := true),
               UNLOCK_PREFIX + "15", [Timed(20, 20), Timed(25, 45), Timed(30, 70)]),
    // 17: Reverse Controls
    LevelEntry(20, None, ALL_KINDS,
               NO_RULES.(reverseControls := true),
               UNLOCK_PREFIX + "16", [Scored(20, 2000), Scored(28, 4000), Scored(35, 7000)]),
    // 18: Ultimate Challenge
    LevelEntry(25, Some(120), [I, T, S, Z],
               NO_RULES.(maxRotations := Some(1), disableDownAcceleration := true, timeLimit := true),
               UNLOCK_PREFIX + "17", [Timed(25, 30), Timed(30, 60), Timed(35, 90)]),
    // 19: Ultimate Challenge
    LevelEntry(30, None, ALL_KINDS,
               NO_RULES.(ultimateMode := true),
               UNLOCK_PREFIX + "18", [Scored(30, 3000), Scored(38, 5500), Scored(45, 9000)]),
    // 20: Legendary Mode
    LevelEntry(35, Some(180), [I, O],
               NO_RULES.(maxRotations := Some(1), disableDownAcceleration := true, timeLimit := true, legendaryMode := true),
               UNLOCK_PREFIX + "19", [Timed(35, 60), Timed(40, 120), Timed(45, 150)])
  ]

  /** The display name of each level of the table. */
  function LevelName(id: int): string
    requires 1 <= id <= 20
  {
    ["Beginner",
     "Basic Practice",
     "Speed Up",
     "Quick Reaction",
     "Intermediate Challenge",
     "Piece Restriction",
     "Rotation Limit",
     "High Speed Mode",
     "Precise Control",
     "No Acceleration Challenge",
     "Time Challenge",
     "Ultra Speed Mode",
     "Specific Target",
     "Piece Master",
     "Advanced Challenge",
     "Time Master",
     "Reverse Controls",
     "Ultimate Challenge",
     "Ultimate Challenge",
     "Legendary Mode"][id - 1]
  }

  /** The entry of a level id, or nothing for an id outside the table. */
  function GetLevelConfig(id: int): (c: Option<LevelEntry>)
    ensures c.Some? <==> 1 <= id <= TotalLevels()
    ensures c.Some? ==> c.value == LEVELS[id - 1]
  {
    if 1 <= id <= |LEVELS| then Some(LEVELS[id - 1]) else None
  }

  function TotalLevels(): (n: nat)
    ensures n == 20
  {
    |LEVELS|
  }

  /** The unlock condition of a level, "none" for an unknown id. */
  function GetUnlockCondition(id: int): (cond: string)
    ensures GetLevelConfig(id).None? ==> cond == "none"
  {
    match GetLevelConfig(id)
    case Some(c) => c.unlockCondition
    case None => "none"
  }

  /** The star requirements of a level, none for an unknown id. */
  function GetStarRequirements(id: int): (reqs: seq<StarRequirement>)
    ensures GetLevelConfig(id).None? ==> reqs == []
    ensures GetLevelConfig(id).Some? ==> |reqs| == 3
  {
    match GetLevelConfig(id)
    case Some(c) => LevelEntryShape(id); c.starRequirements
    case None => []
  }

  // ---- Reading the level number out of an unlock condition ----

  const UNLOCK_PREFIX: string := "complete_level_"

  predicate StartsWith(s: string, prefix: string)
  {
    |prefix| <= |s| && s[..|prefix|] == prefix
  }

  /** The text after the last underscore, or all of `s` when it has none
      (the last field of `s.split("_")`). */
  function LastField(s: string): (f: string)
    ensures '_' !in f
    ensures |f| <= |s| && f == s[|s| - |f|..]
    ensures |f| < |s| ==> s[|s| - |f| - 1] == '_'
  {
    if s == [] then []
    else if s[|s| - 1] == '_' then []
    else LastField(s[..|s| - 1]) + [s[|s| - 1]]
  }

  predicate IsDigit(c: char)
  {
    '0' <= c <= '9'
  }

  function DigitValue(c: char): nat
    requires IsDigit(c)
  {
    (c as int) - ('0' as int)
  }

  function DigitChar(d: nat): (c: char)
    requires d < 10
    ensures IsDigit(c) && DigitValue(c) == d
  {
    ((('0' as int) + d) as char)
  }

  /** The value of a string of decimal digits. */
  function DigitsValue(s: string): nat
    requires forall i :: 0 <= i < |s| ==> IsDigit(s[i])
  {
    if s == [] then 0 else DigitsValue(s[..|s| - 1]) * 10 + DigitValue(s[|s| - 1])
  }

  /** A non-empty run of decimal digits read as a number; anything else is
      not a number. */
  function ParseNat(s: string): (n: Option<nat>)
    ensures n.Some? <==> s != [] && forall i :: 0 <= i < |s| ==> IsDigit(s[i])
  {
    if s != [] && forall i :: 0 <= i < |s| ==> IsDigit(s[i]) then Some(DigitsValue(s)) else None
  }

  /** The decimal digits of `n`, most significant first, without leading zeros. */
  function NatToString(n: nat): (s: string)
    ensures s != [] && forall i :: 0 <= i < |s| ==> IsDigit(s[i])
    ensures |s| > 1 ==> s[0] != '0'
  {
    if n < 10 then [DigitChar(n)] else NatToString(n / 10) + [DigitChar(n % 10)]
  }

  /** Reading back the digits of a number gives the number. */
  lemma {:induction false} ParseNatToString(n: nat)
    ensures ParseNat(NatToString(n)) == Some(n)
  {
    var s := NatToString(n);
    if n < 10 {
      assert s[..0] == [];
    } else {
      ParseNatToString(n / 10);
      assert s[..|s| - 1] == NatToString(n / 10);
      assert DigitsValue(s) == DigitsValue(NatToString(n / 10)) * 10 + n % 10;
    }
  }

  /** The last field after a prefix ending in an underscore is the rest. */
  lemma {:induction false} LastFieldAfterUnderscore(p: string, q: string)
    requires p != [] && p[|p| - 1] == '_' && '_' !in q
    ensures LastField(p + q) == q
    decreases |q|
  {
    if q == [] {
      assert p + q == p;
    } else {
      var s, q', c := p + q, q[..|q| - 1], q[|q| - 1];
      assert s[|s| - 1] == c && c != '_';
      assert s[..|s| - 1] == p + q';
      LastFieldAfterUnderscore(p, q');
      assert LastField(s) == q' + [c];
      assert q' + [c] == q;
    }
  }

  /** The last field of "complete_level_<k>" is the digits of k. */
  lemma LastFieldOfCondition(k: nat)
    ensures LastField(UNLOCK_PREFIX + NatToString(k)) == NatToString(k)
  {
    var d := NatToString(k);
    assert '_' !in d by {
      forall i | 0 <= i < |d| ensures d[i] != '_' {
        assert IsDigit(d[i]);
      }
    }
    LastFieldAfterUnderscore(UNLOCK_PREFIX, d);
  }

  /** Whether a condition is met by the completed levels: "none" always is;
      "complete_level_<k>" is when `k` has been completed; anything else never
      is. */
  function ConditionMet(cond: string, completed: seq<int>): bool
  {
    if cond == "none" then true
    else if StartsWith(cond, UNLOCK_PREFIX) then
      match ParseNat(LastField(cond))
      case Some(k) => k in completed
      case None => false
    else false
  }

  /** "complete_level_<k>" is met exactly when `k` is among the completed levels. */
  lemma CompleteConditionMet(k: nat, completed: seq<int>)
    ensures ConditionMet(UNLOCK_PREFIX + NatToString(k), completed) <==> k in completed
  {
    var cond := UNLOCK_PREFIX + NatToString(k);
    assert cond[..|UNLOCK_PREFIX|] == UNLOCK_PREFIX;
    assert cond != "none" by {
      assert |cond| > 4;
    }
    LastFieldOfCondition(k);
    ParseNatToString(k);
  }

  /** Level 1 is always open; other ids outside the table never are; a
      level in the table is open when its condition is met. */
  function IsLevelUnlocked(id: int, completed: seq<int>): (open: bool)
    ensures id == 1 ==> open
    ensures GetLevelConfig(id).None? ==> open == (id == 1)
  {
    if id == 1 then true
    else match GetLevelConfig(id)
      case None => false
      case Some(c) => ConditionMet(c.unlockCondition, completed)
  }

  /** The table's own unlock conditions: "none" for level 1 and
      "complete_level_<n - 1>" for every later level. */
  lemma UnlockConditions(n: int)
    requires 1 <= n <= 20
    ensures n == 1 ==> GetUnlockCondition(n) == "none"
    ensures n >= 2 ==> GetUnlockCondition(n) == UNLOCK_PREFIX + NatToString(n - 1)
  {
    if n >= 2 {
      var d := NatToString(n - 1);
      if n - 1 < 10 {
        assert d == [DigitChar(n - 1)];
      } else {
        assert d == [DigitChar(1), DigitChar(n - 11)];
      }
    }
  }

  /** A table level other than 1 is open exactly when its own condition is met. */
  lemma UnlockedByCondition(n: int, completed: seq<int>)
    requires 2 <= n <= 20
    ensures IsLevelUnlocked(n, completed) == ConditionMet(GetUnlockCondition(n), completed)
  {
  }

  /** Every level from 2 to 20 opens exactly when the level before it has
      been completed. */
  lemma UnlockChain(n: int, completed: seq<int>)
    requires 2 <= n <= 20
    ensures IsLevelUnlocked(n, completed) <==> n - 1 in completed
  {
    assert IsLevelUnlocked(n, completed) == ConditionMet(GetUnlockCondition(n), completed) by {
      UnlockedByCondition(n, completed);
    }
    assert GetUnlockCondition(n) == UNLOCK_PREFIX + NatToString(n - 1) by {
      UnlockConditions(n);
    }
    assert ConditionMet(UNLOCK_PREFIX + NatToString(n - 1), completed) <==> n - 1 in completed by {
      CompleteConditionMet(n - 1, completed);
    }
  }

  /** Every entry has three star grades whose line thresholds strictly
      increase, the first equal to the level's target. */
  lemma LevelEntryShape(id: int)
    requires 1 <= id <= 20
    ensures var c := LEVELS[id - 1];
            |c.starRequirements| == 3 &&
            (forall i :: 0 <= i < 3 ==> c.starRequirements[i].lines.Some?) &&
            c.starRequirements[0].lines == Some(c.targetLines) &&
            c.starRequirements[0].lines.value < c.starRequirements[1].lines.value < c.starRequirements[2].lines.value
  {
  }

  /** The facts about an entry the rule engine relies on: a target of at
      least 5 rows, a positive time limit if any, a non-empty set of kinds,
      and three grades with strictly increasing line thresholds starting at
      the target. */
  predicate EntryWellFormed(c: LevelEntry)
  {
    c.targetLines >= 5 && (c.timeLimit.Some? ==> c.timeLimit.value > 0) && |c.pieceTypes| > 0 &&
    |c.starRequirements| == 3 &&
    (forall i :: 0 <= i < 3 ==> c.starRequirements[i].lines.Some?) &&
    c.starRequirements[0].lines == Some(c.targetLines) &&
    c.starRequirements[0].lines.value < c.starRequirements[1].lines.value < c.starRequirements[2].lines.value
  }

  lemma TableWellFormed(id: int)
    requires 1 <= id <= 20
    ensures EntryWellFormed(LEVELS[id - 1])
  {
    LevelEntryShape(id);
    LevelEntryCriteria(id);
  }

  /** An entry with a time limit grades by remaining time, one without by
      score; every entry draws from a non-empty set of kinds. */
  lemma LevelEntryCriteria(id: int)
    requires 1 <= id <= 20
    ensures var c := LEVELS[id - 1];
            |c.pieceTypes| > 0 && |c.starRequirements| == 3 &&
            (forall i :: 0 <= i < 3 ==>
               (c.starRequirements[i].timeRemaining.Some? <==> c.timeLimit.Some?) &&
               (c.starRequirements[i].score.Some? <==> c.timeLimit.None?))
  {
  }
}
