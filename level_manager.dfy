/**
 * The level-mode rule engine and progress book-keeping
 * (src/level/level_manager.py). Time is an integer millisecond clock passed
 * in by the caller; level time limits in the table are in seconds.
 */
module LevelManagers {
  import opened Wrappers
  import opened Shapes
  import opened Levels

  /** The rule-checked actions, named as the game names them. */
  const ROTATE: string := "rotate"
  const DOWN_ACCELERATION: string := "down_acceleration"

  /** No element occurs twice. */
  predicate NoDuplicates(s: seq<int>)
  {
    forall i, j :: 0 <= i < j < |s| ==> s[i] != s[j]
  }

  /** The map after recording `v` as the best for `k`: the entry is written
      when it is absent or strictly lower, and every other entry stays. */
  function RecordBest(m: map<int, int>, k: int, v: int): (m': map<int, int>)
    ensures k in m' && m'[k] == (if k in m && m[k] >= v then m[k] else v)
    ensures k in m ==> m'[k] >= m[k]
    ensures forall j :: j != k ==> (j in m' <==> j in m)
    ensures forall j :: j != k && j in m ==> m'[j] == m[j]
  {
    if k !in m || v > m[k] then m[k := v] else m
  }

  /** Recording a value that is not better changes nothing, and recording the
      same value twice is the same as recording it once. */
  lemma RecordBestIdempotent(m: map<int, int>, k: int, v: int)
    ensures k in m && m[k] >= v ==> RecordBest(m, k, v) == m
    ensures RecordBest(RecordBest(m, k, v), k, v) == RecordBest(m, k, v)
  {
  }

  class LevelManager {
    var currentLevelId: int
    var currentLevelConfig: Option<LevelEntry>
    var completedLevels: seq<int>
    var levelScores: map<int, int>
    var levelStars: map<int, int>
    var specialRules: SpecialRules
    var rotationCount: int
    /** Clock reading when the level was loaded; 0 until a level is loaded. */
    var startTime: int
    var timeLimit: Option<int>

    /** A loaded configuration is a well-formed entry of a table id, a time
        limit comes with a start time, and no level is recorded twice. */
    ghost predicate Valid()
      reads this
    {
      (currentLevelConfig.Some? ==> 1 <= currentLevelId <= 20 && EntryWellFormed(currentLevelConfig.value)) &&
      Started() &&
      NoDuplicates(completedLevels)
    }

    /** A time limit in force comes with the time the level was loaded. */
    predicate Started()
      reads this`timeLimit, this`startTime
    {
      HasTimeLimit() ==> startTime != 0
    }

    /** A time limit is in force (a limit of 0 counts as none, as in the game). */
    predicate HasTimeLimit()
      reads this`timeLimit
    {
      timeLimit.Some? && timeLimit.value != 0
    }

    /** A manager with no level loaded and no progress. */
    constructor ()
      ensures Valid()
      ensures currentLevelId == 1 && currentLevelConfig == None
      ensures completedLevels == [] && levelScores == map[] && levelStars == map[]
      ensures specialRules == NO_RULES && rotationCount == 0 && startTime == 0 && timeLimit == None
    {
      currentLevelId := 1;
      currentLevelConfig := None;
      completedLevels := [];
      levelScores := map[];
      levelStars := map[];
      specialRules := NO_RULES;
      rotationCount := 0;
      startTime := 0;
      timeLimit := None;
    }

    /** Whether a level is open given the completed levels: level 1 always,
        level n of the table once level n - 1 is completed, nothing else.
        This is the table's unlock rule (see `UnlockedAsTableSays`). */
    function IsLevelUnlocked(id: int): (open: bool)
      reads this`completedLevels
      ensures id == 1 ==> open
      ensures open ==> 1 <= id <= 20
    {
      id == 1 || (2 <= id <= 20 && id - 1 in completedLevels)
    }

    /** Loads an open level: records its id and entry, takes over its rules and
        time limit, clears the rotation count and starts its clock at `now`.
        An unknown or locked level is refused and nothing changes. */
    method LoadLevel(id: int, now: int) returns (ok: bool)
      requires Valid() && now > 0
      modifies this`currentLevelId, this`currentLevelConfig, this`specialRules,
               this`rotationCount, this`startTime, this`timeLimit
      ensures Valid()
      ensures ok <==> 1 <= id <= 20 && IsLevelUnlocked(id)
      ensures !ok ==> currentLevelId == old(currentLevelId) && currentLevelConfig == old(currentLevelConfig) &&
                      specialRules == old(specialRules) && rotationCount == old(rotationCount) &&
                      startTime == old(startTime) && timeLimit == old(timeLimit)
      ensures ok ==> currentLevelId == id && currentLevelConfig == Some(LEVELS[id - 1]) &&
                     specialRules == LEVELS[id - 1].specialRules && rotationCount == 0 &&
                     startTime == now && timeLimit == LEVELS[id - 1].timeLimit
    {
      var config := GetLevelConfig(id);
      if config.None? {
        return false;
      }
      var open := IsLevelUnlocked(id);
      if !open {
        return false;
      }
      TableWellFormed(id);
      currentLevelId := id;
      currentLevelConfig := config;
      specialRules := config.value.specialRules;
      rotationCount := 0;
      startTime := now;
      timeLimit := config.value.timeLimit;
      return true;
    }

    /** The kinds the current level draws from; every kind when none is loaded.
        The list is never empty. */
    function AvailablePieceTypes(): (kinds: seq<Kind>)
      reads this`currentLevelConfig
      ensures Valid() ==> |kinds| > 0
      ensures currentLevelConfig.None? ==> kinds == ALL_KINDS
      ensures currentLevelConfig.Some? ==> kinds == currentLevelConfig.value.pieceTypes
    {
      match currentLevelConfig
      case None => ALL_KINDS
      case Some(c) => c.pieceTypes
    }

    /** The rows the current level asks for; 10 when none is loaded. */
    function TargetLines(): (t: int)
      reads this`currentLevelConfig
      ensures currentLevelConfig.None? ==> t == 10
      ensures currentLevelConfig.Some? ==> t == currentLevelConfig.value.targetLines
      ensures Valid() && currentLevelConfig.Some? ==> t >= 5
    {
      match currentLevelConfig
      case None => 10
      case Some(c) => c.targetLines
    }

    /** Milliseconds since the level was loaded. */
    function Elapsed(now: int): int
      reads this`startTime
    {
      now - startTime
    }

    /** The level is won when a level is loaded, its time limit (if any) has
        not been overrun, and enough rows have been cleared. */
    function CheckLevelComplete(linesCleared: int, score: int, now: int): (done: bool)
      reads this`currentLevelConfig, this`timeLimit, this`startTime
      ensures done <==> currentLevelConfig.Some? &&
                        !(HasTimeLimit() && startTime != 0 && Elapsed(now) > timeLimit.value * 1000) &&
                        linesCleared >= TargetLines()
    {
      if currentLevelConfig.None? then false
      else if HasTimeLimit() && startTime != 0 && Elapsed(now) > timeLimit.value * 1000 then false
      else linesCleared >= TargetLines()
    }

    /** Whether grade `star` (1, 2 or 3) of the current level is met. A
        criterion the grade does not name is not checked, nor is the time
        criterion when no remaining time is known; a grade the level does not
        define counts as met. */
    function CheckStarRequirement(star: int, linesCleared: int, score: int, timeRemaining: Option<int>): (met: bool)
      reads this`currentLevelConfig
      ensures currentLevelConfig.None? ==> !met
      ensures currentLevelConfig.Some? && 1 <= star <= |currentLevelConfig.value.starRequirements| ==>
                var r := currentLevelConfig.value.starRequirements[star - 1];
                (met <==> (r.lines.None? || linesCleared >= r.lines.value) &&
                          (r.score.None? || score >= r.score.value) &&
                          (r.timeRemaining.None? || timeRemaining.None? || timeRemaining.value >= r.timeRemaining.value))
    {
      if currentLevelConfig.None? then false
      else
        var reqs := currentLevelConfig.value.starRequirements;
        if !(1 <= star <= |reqs|) then true
        else
          var r := reqs[star - 1];
          if r.lines.Some? && linesCleared < r.lines.value then false
          else if r.score.Some? && score < r.score.value then false
          else if r.timeRemaining.Some? && timeRemaining.Some? && timeRemaining.value < r.timeRemaining.value then false
          else true
    }

    /** How many grades in a row, from grade `star` on, are met. */
    function MetRun(star: nat, linesCleared: int, score: int, timeRemaining: Option<int>): (run: nat)
      reads this`currentLevelConfig
      requires currentLevelConfig.Some? && 1 <= star
      decreases |currentLevelConfig.value.starRequirements| + 1 - star
    {
      if star > |currentLevelConfig.value.starRequirements| then 0
      else if CheckStarRequirement(star, linesCleared, score, timeRemaining) then
        1 + MetRun(star + 1, linesCleared, score, timeRemaining)
      else 0
    }

    /** The grade earned: grades are checked from 1 upwards and the walk stops
        at the first grade not met (see `StarsIsLeadingRun`). */
    function Stars(linesCleared: int, score: int, timeRemaining: Option<int>): (stars: nat)
      reads this`currentLevelConfig
    {
      if currentLevelConfig.None? then 0 else MetRun(1, linesCleared, score, timeRemaining)
    }

    /** The walk over the grades with its early exit computes `Stars`. */
    method CalculateStars(linesCleared: int, score: int, timeRemaining: Option<int>) returns (stars: int)
      ensures stars == Stars(linesCleared, score, timeRemaining)
    {
      if currentLevelConfig.None? {
        return 0;
      }
      var n := |currentLevelConfig.value.starRequirements|;
      stars := 0;
      var star := 1;
      while star <= n
        invariant 1 <= star <= n + 1 && stars == star - 1
        invariant Stars(linesCleared, score, timeRemaining) == stars + MetRun(star, linesCleared, score, timeRemaining)
      {
        var met := CheckStarRequirement(star, linesCleared, score, timeRemaining);
        if met {
          stars := star;
        } else {
          break;
        }
        star := star + 1;
      }
    }

    /** Whether an action breaks the current rules: a rotation once the
        rotation cap is reached, down acceleration when it is banned. */
    function CheckRuleViolation(action: string): (v: bool)
      reads this`specialRules, this`rotationCount
      ensures action == ROTATE ==>
                (v <==> specialRules.maxRotations.Some? && rotationCount >= specialRules.maxRotations.value)
      ensures action == DOWN_ACCELERATION ==> (v <==> specialRules.disableDownAcceleration)
      ensures action != ROTATE && action != DOWN_ACCELERATION ==> !v
    {
      if specialRules == NO_RULES then false
      else if action == ROTATE && specialRules.maxRotations.Some? && rotationCount >= specialRules.maxRotations.value then true
      else if action == DOWN_ACCELERATION && specialRules.disableDownAcceleration then true
      else false
    }

    method RecordRotation()
      modifies this`rotationCount
      ensures rotationCount == old(rotationCount) + 1
    {
      rotationCount := rotationCount + 1;
    }

    /** Whole seconds left: none without a time limit or before the clock
        started, otherwise the remaining time rounded towards zero, never
        below 0. */
    function TimeRemaining(now: int): (t: Option<int>)
      reads this`timeLimit, this`startTime
      ensures t.None? <==> !HasTimeLimit() || startTime == 0
      ensures t.Some? ==> var left := timeLimit.value * 1000 - Elapsed(now);
                          t.value >= 0 &&
                          (left < 1000 ==> t.value == 0) &&
                          (left >= 0 ==> t.value * 1000 <= left < t.value * 1000 + 1000)
    {
      if !HasTimeLimit() || startTime == 0 then None
      else
        var left := timeLimit.value * 1000 - Elapsed(now);
        if left < 0 then Some(0) else Some(left / 1000)
    }

    /** The time is up when a limit is in force and less than a whole second
        remains. */
    function IsTimeUp(now: int): (up: bool)
      reads this`timeLimit, this`startTime
      requires Started()
      ensures up <==> HasTimeLimit() && timeLimit.value * 1000 - Elapsed(now) < 1000
    {
      if !HasTimeLimit() then false
      else TimeRemaining(now).value <= 0
    }

    /** The current level is listed as completed exactly once, and its best
        score and grade take `score` and `stars` into account. */
    twostate predicate Completed(score: int, stars: int)
      reads this`completedLevels, this`levelScores, this`levelStars, this`currentLevelId
    {
      completedLevels == (if currentLevelId in old(completedLevels) then old(completedLevels)
                          else old(completedLevels) + [currentLevelId]) &&
      levelScores == RecordBest(old(levelScores), currentLevelId, score) &&
      levelStars == RecordBest(old(levelStars), currentLevelId, stars)
    }

    /** Records the current level as completed (once), and its score and grade
        as the best when they beat the recorded ones. */
    method CompleteLevel(linesCleared: int, score: int, stars: int)
      modifies this`completedLevels, this`levelScores, this`levelStars
      ensures old(Valid()) ==> Valid()
      ensures Completed(score, stars)
    {
      if currentLevelId !in completedLevels {
        completedLevels := completedLevels + [currentLevelId];
      }
      if currentLevelId !in levelScores || score > levelScores[currentLevelId] {
        levelScores := levelScores[currentLevelId := score];
      }
      if currentLevelId !in levelStars || stars > levelStars[currentLevelId] {
        levelStars := levelStars[currentLevelId := stars];
      }
    }

    /** Forgets all progress and returns to level 1. */
    method ResetProgress()
      requires Valid()
      modifies this`completedLevels, this`levelScores, this`levelStars, this`currentLevelId
      ensures completedLevels == [] && levelScores == map[] && levelStars == map[] && currentLevelId == 1
      ensures Valid()
    {
      completedLevels, levelScores, levelStars := [], map[], map[];
      currentLevelId := 1;
    }

    /** Level `id` is open by the unlock rule and not yet completed. */
    predicate Playable(id: int)
      reads this
    {
      (id == 1 || (2 <= id <= 20 && id - 1 in completedLevels)) && id !in completedLevels
    }

    /** The lowest level that is open and not yet completed, if any. */
    method GetNextUnlockedLevel() returns (next: Option<int>)
      ensures next.Some? ==> 1 <= next.value <= 20 && Playable(next.value) &&
                             forall j :: 1 <= j < next.value ==> !Playable(j)
      ensures next.None? ==> forall j :: 1 <= j <= 20 ==> !Playable(j)
    {
      var id := 1;
      while id <= TotalLevels()
        invariant 1 <= id <= 21
        invariant forall j :: 1 <= j < id ==> !Playable(j)
      {
        var open := IsLevelUnlocked(id);
        if open && id !in completedLevels {
          return Some(id);
        }
        id := id + 1;
      }
      return None;
    }
  }

  /** The manager's unlock check is the table's unlock condition applied to
      the completed levels. */
  lemma UnlockedAsTableSays(m: LevelManager, id: int)
    ensures m.IsLevelUnlocked(id) == Levels.IsLevelUnlocked(id, m.completedLevels)
  {
    if 2 <= id <= 20 {
      UnlockChain(id, m.completedLevels);
    }
  }

  /** On every table level a better grade implies the one below it: the
      thresholds only grow, so the run of met grades is simply every grade
      that is met. */
  lemma StarGradesNested(id: int, star: int, linesCleared: int, score: int, timeRemaining: Option<int>)
    requires 1 <= id <= 20 && 2 <= star <= 3
    ensures var r := LEVELS[id - 1].starRequirements;
            Meets(r[star - 1], linesCleared, score, timeRemaining) ==> Meets(r[star - 2], linesCleared, score, timeRemaining)
  {
    LevelEntryShape(id);
    LevelEntryCriteria(id);
  }

  /** `MetRun` measures the unbroken run of met grades from `star` on: every
      grade in the run is met and the grade after it, when the level defines
      one, is not. */
  lemma {:induction false} MetRunIsRun(m: LevelManager, star: nat, linesCleared: int, score: int, timeRemaining: Option<int>)
    requires m.currentLevelConfig.Some? && 1 <= star
    ensures var n := |m.currentLevelConfig.value.starRequirements|;
            var run := m.MetRun(star, linesCleared, score, timeRemaining);
            (star > n ==> run == 0) &&
            (star <= n ==> star + run <= n + 1) &&
            (forall j :: star <= j < star + run ==> m.CheckStarRequirement(j, linesCleared, score, timeRemaining)) &&
            (star + run <= n ==> !m.CheckStarRequirement(star + run, linesCleared, score, timeRemaining))
    decreases |m.currentLevelConfig.value.starRequirements| + 1 - star
  {
    if star <= |m.currentLevelConfig.value.starRequirements| &&
       m.CheckStarRequirement(star, linesCleared, score, timeRemaining) {
      MetRunIsRun(m, star + 1, linesCleared, score, timeRemaining);
    }
  }

  /** The grade is the last grade of the unbroken run of met grades starting
      at grade 1: every grade up to it is met and the next one, when the level
      defines it, is not; without a loaded level the grade is 0. */
  lemma StarsIsLeadingRun(m: LevelManager, linesCleared: int, score: int, timeRemaining: Option<int>)
    ensures m.currentLevelConfig.None? ==> m.Stars(linesCleared, score, timeRemaining) == 0
    ensures m.currentLevelConfig.Some? ==>
              var n := |m.currentLevelConfig.value.starRequirements|;
              var stars := m.Stars(linesCleared, score, timeRemaining);
              stars <= n &&
              (forall j :: 1 <= j <= stars ==> m.CheckStarRequirement(j, linesCleared, score, timeRemaining)) &&
              (stars < n ==> !m.CheckStarRequirement(stars + 1, linesCleared, score, timeRemaining))
  {
    if m.currentLevelConfig.Some? {
      MetRunIsRun(m, 1, linesCleared, score, timeRemaining);
    }
  }

  /** One grade's criteria, as `CheckStarRequirement` applies them. */
  predicate Meets(r: StarRequirement, linesCleared: int, score: int, timeRemaining: Option<int>)
  {
    (r.lines.None? || linesCleared >= r.lines.value) &&
    (r.score.None? || score >= r.score.value) &&
    (r.timeRemaining.None? || timeRemaining.None? || timeRemaining.value >= r.timeRemaining.value)
  }

  /** Once the completion check treats the time as overrun, the time is also
      up; but the time is already up throughout the last second before the
      limit, while completion is still accepted then. */
  lemma TimeUpVersusOverrun(m: LevelManager, now: int)
    requires m.Valid() && m.HasTimeLimit()
    ensures m.Elapsed(now) > m.timeLimit.value * 1000 ==> m.IsTimeUp(now)
    ensures m.timeLimit.value * 1000 - 1000 < m.Elapsed(now) <= m.timeLimit.value * 1000 ==>
              m.IsTimeUp(now) && (m.currentLevelConfig.Some? && 100 >= m.TargetLines() ==> m.CheckLevelComplete(100, 0, now))
  {
  }

  /** Level 7 allows exactly one rotation: none recorded, a rotation is
      allowed; after one, the next is refused. */
  lemma LevelSevenRotationCap(m: LevelManager)
    requires m.specialRules == LEVELS[6].specialRules
    ensures m.rotationCount == 0 ==> !m.CheckRuleViolation(ROTATE)
    ensures m.rotationCount == 1 ==> m.CheckRuleViolation(ROTATE)
    ensures !m.CheckRuleViolation(DOWN_ACCELERATION)
  {
  }
}
