/**
 * The score keeper of the modular game (src/core/score_manager.py): the
 * running score and the best one, a scoring formula with a combo bonus, and
 * a history of finished games that can be ranked and summarised. Reading
 * and writing the score file, and the clock that stamps an entry, are
 * outside the model: what the file held is given to the constructor, and
 * the time stamps are given to `SaveScore`.
 */
module Scores {
  import opened Wrappers
  import GameConfig

  /** One finished game as the history records it. */
  datatype ScoreEntry = ScoreEntry(playerName: string, score: int, gameMode: string, timestamp: string, date: string)

  /** The integer summaries of the history: number of games, best, worst and
      total score. */
  datatype Statistics = Statistics(totalGames: nat, highestScore: int, lowestScore: int, totalScore: int)

  const COMBO_BONUS: int := 50

  /** The points for clearing `lines` rows at `level` with `combo` earlier
      clears in a row: the base points plus 50 per combo step, all multiplied
      by the level. */
  function CalculateScore(lines: int, level: int, combo: int): (points: int)
    ensures !(1 <= lines <= 4) ==> points == COMBO_BONUS * combo * level
    ensures combo == 0 ==> points == GameConfig.Score(lines, level)
  {
    (GameConfig.BaseScore(lines) + combo * COMBO_BONUS) * level
  }

  /** Four rows at level 3 after a combo of 2 earn 2700; a combo adds 50 per
      step before the level multiplies, and a clear of nothing earns only
      the combo bonus. */
  lemma CalculateScoreValues()
    ensures CalculateScore(4, 3, 2) == 2700
    ensures CalculateScore(1, 1, 0) == 100 && CalculateScore(2, 2, 1) == 700
    ensures CalculateScore(0, 5, 0) == 0
  {
  }

  /** At a positive level, a further combo step is worth exactly 50 points
      per level, and more rows at once are worth strictly more. */
  lemma CalculateScoreGrows(lines: int, lines2: int, level: int, combo: int)
    requires level > 0 && 1 <= lines < lines2 <= 4
    ensures CalculateScore(lines, level, combo + 1) == CalculateScore(lines, level, combo) + COMBO_BONUS * level
    ensures CalculateScore(lines, level, combo) < CalculateScore(lines2, level, combo)
  {
    GameConfig.BaseScoreIncreasing(lines, lines2);
    GameConfig.MulStrict(GameConfig.BaseScore(lines) + combo * COMBO_BONUS,
                         GameConfig.BaseScore(lines2) + combo * COMBO_BONUS, level);
  }

  /** `e` inserted into `t` just before the first entry whose score is not
      higher, so that it follows every better score and precedes the equal
      ones. */
  function Insert(e: ScoreEntry, t: seq<ScoreEntry>): (r: seq<ScoreEntry>)
    ensures multiset(r) == multiset(t) + multiset{e}
  {
    if t == [] || t[0].score <= e.score then [e] + t
    else
      assert t == [t[0]] + t[1..];
      [t[0]] + Insert(e, t[1..])
  }

  /** The history ranked by score from best to worst, games with the same
      score keeping their history order (a stable sort, highest first). */
  function Ranked(s: seq<ScoreEntry>): (r: seq<ScoreEntry>)
    ensures multiset(r) == multiset(s) && |r| == |s|
  {
    if s == [] then []
    else
      assert s == [s[0]] + s[1..];
      Insert(s[0], Ranked(s[1..]))
  }

  predicate NonIncreasing(r: seq<ScoreEntry>)
  {
    forall i, j :: 0 <= i < j < |r| ==> r[i].score >= r[j].score
  }

  /** The entries of `s` with score `v`, in order. */
  function WithScore(s: seq<ScoreEntry>, v: int): seq<ScoreEntry>
  {
    if s == [] then []
    else (if s[0].score == v then [s[0]] else []) + WithScore(s[1..], v)
  }

  lemma {:induction false} InsertKeepsOrder(e: ScoreEntry, t: seq<ScoreEntry>)
    requires NonIncreasing(t)
    ensures NonIncreasing(Insert(e, t))
    decreases |t|
  {
    if t != [] && t[0].score > e.score {
      InsertKeepsOrder(e, t[1..]);
      var r := Insert(e, t[1..]);
      assert multiset(r) == multiset(t[1..]) + multiset{e};
      forall j | 0 <= j < |r|
        ensures t[0].score >= r[j].score
      {
        assert r[j] in multiset(r);
        if r[j] != e {
          assert r[j] in multiset(t[1..]);
          var k :| 0 <= k < |t[1..]| && t[1..][k] == r[j];
          assert t[k + 1] == r[j];
        }
      }
    }
  }

  /** Inserting an entry with score `v` puts it before every entry of score
      `v` already there; any other score's entries are untouched. */
  lemma WithScoreCons(x: ScoreEntry, s: seq<ScoreEntry>, v: int)
    ensures WithScore([x] + s, v) == (if x.score == v then [x] else []) + WithScore(s, v)
  {
    assert ([x] + s)[1..] == s;
  }

  lemma {:induction false} InsertWithScore(e: ScoreEntry, t: seq<ScoreEntry>, v: int)
    ensures WithScore(Insert(e, t), v) == (if e.score == v then [e] else []) + WithScore(t, v)
    decreases |t|
  {
    if t != [] && t[0].score > e.score {
      var rest := Insert(e, t[1..]);
      assert Insert(e, t) == [t[0]] + rest;
      assert t == [t[0]] + t[1..];
      WithScoreCons(t[0], rest, v);
      WithScoreCons(t[0], t[1..], v);
      InsertWithScore(e, t[1..], v);
      if e.score == v {
        assert WithScore(Insert(e, t), v) == [e] + WithScore(t[1..], v);
      }
    } else {
      WithScoreCons(e, t, v);
    }
  }

  /** The ranking goes from the best score to the worst. */
  lemma {:induction false} RankedIsSorted(s: seq<ScoreEntry>)
    ensures NonIncreasing(Ranked(s))
    decreases |s|
  {
    if s != [] {
      RankedIsSorted(s[1..]);
      InsertKeepsOrder(s[0], Ranked(s[1..]));
    }
  }

  /** The ranking is stable: the games with any one score appear in the
      order the history has them. */
  lemma {:induction false} RankedIsStable(s: seq<ScoreEntry>, v: int)
    ensures WithScore(Ranked(s), v) == WithScore(s, v)
    decreases |s|
  {
    if s != [] {
      RankedIsStable(s[1..], v);
      InsertWithScore(s[0], Ranked(s[1..]), v);
    }
  }

  /** The first `n` entries, as a slice `[:n]` takes them: all of them when
      `n` is at least the length, and all but the last `-n` when `n` is
      negative. */
  function Take(s: seq<ScoreEntry>, n: int): (r: seq<ScoreEntry>)
    ensures |r| <= |s| && r == s[..|r|]
    ensures n >= 0 ==> |r| == if n < |s| then n else |s|
    ensures n < 0 ==> |r| == if |s| + n > 0 then |s| + n else 0
  {
    if n >= 0 then (if n < |s| then s[..n] else s)
    else if |s| + n > 0 then s[..|s| + n] else []
  }

  /** A prefix of a ranking is a ranking drawn from it. */
  lemma TakeOfSorted(q: seq<ScoreEntry>, n: int)
    requires NonIncreasing(q)
    ensures NonIncreasing(Take(q, n)) && multiset(Take(q, n)) <= multiset(q)
  {
    var r := Take(q, n);
    assert q == r + q[|r|..];
    assert multiset(q) == multiset(r) + multiset(q[|r|..]);
  }

  /** The ranking starts with a best game of the history. */
  lemma RankedHeadIsBest(h: seq<ScoreEntry>)
    requires h != []
    ensures forall e :: e in h ==> Ranked(h)[0].score >= e.score
  {
    var q := Ranked(h);
    RankedIsSorted(h);
    forall e | e in h
      ensures q[0].score >= e.score
    {
      assert e in multiset(q);
      var k :| 0 <= k < |q| && q[k] == e;
    }
  }

  /** Every game of `h` that `r` leaves out scores no higher than any game
      `r` keeps. */
  predicate KeepsTheBest(r: seq<ScoreEntry>, h: seq<ScoreEntry>)
  {
    forall e :: e in multiset(h) - multiset(r) ==> forall i :: 0 <= i < |r| ==> r[i].score >= e.score
  }

  /** In a ranking, every game after position `m` scores no higher than any
      game before it. */
  lemma PrefixOutranksRest(q: seq<ScoreEntry>, m: nat)
    requires NonIncreasing(q) && m <= |q|
    ensures forall e :: e in multiset(q[m..]) ==> forall i :: 0 <= i < m ==> q[i].score >= e.score
  {
    forall e | e in multiset(q[m..])
      ensures forall i :: 0 <= i < m ==> q[i].score >= e.score
    {
      var k :| 0 <= k < |q[m..]| && q[m..][k] == e;
      assert q[m + k] == e;
    }
  }

  /** What a prefix of `q` leaves out of `h`, when `q` is a permutation of
      `h`, is the rest of `q`. */
  lemma LeftOutIsRest(q: seq<ScoreEntry>, h: seq<ScoreEntry>, m: nat)
    requires multiset(q) == multiset(h) && m <= |q|
    ensures multiset(h) - multiset(q[..m]) == multiset(q[m..])
  {
    assert q == q[..m] + q[m..];
  }

  /** A prefix of the ranking keeps the best games: whatever it leaves out
      comes after it in the ranking. */
  lemma TakeKeepsTheBest(h: seq<ScoreEntry>, n: int)
    ensures KeepsTheBest(Take(Ranked(h), n), h)
  {
    var q := Ranked(h);
    var r := Take(q, n);
    RankedIsSorted(h);
    LeftOutIsRest(q, h, |r|);
    PrefixOutranksRest(q, |r|);
    assert forall i :: 0 <= i < |r| ==> r[i] == q[i];
  }

  /** The best `n` games of history `h`, from the best down: at most `n` of
      them, all drawn from the history, the first one the best there is, and
      none left out better than one kept. */
  lemma TopScoresMeaning(h: seq<ScoreEntry>, n: int)
    ensures var r := Take(Ranked(h), n);
            NonIncreasing(r) && multiset(r) <= multiset(h) &&
            (n >= 0 ==> |r| == if n < |h| then n else |h|) &&
            (|r| > 0 ==> forall e :: e in h ==> r[0].score >= e.score) &&
            KeepsTheBest(r, h)
  {
    RankedIsSorted(h);
    TakeOfSorted(Ranked(h), n);
    TakeKeepsTheBest(h, n);
    if |Take(Ranked(h), n)| > 0 {
      RankedHeadIsBest(h);
    }
  }

  function SumScores(s: seq<ScoreEntry>): int
  {
    if s == [] then 0 else s[0].score + SumScores(s[1..])
  }

  /** The best score among the entries of a non-empty history. */
  function MaxScore(s: seq<ScoreEntry>): (m: int)
    requires s != []
    ensures forall i :: 0 <= i < |s| ==> s[i].score <= m
    ensures exists i :: 0 <= i < |s| && s[i].score == m
  {
    if |s| == 1 then s[0].score
    else
      var m := MaxScore(s[1..]);
      assert forall i :: 1 <= i < |s| ==> s[i] == s[1..][i - 1];
      if s[0].score >= m then s[0].score else m
  }

  /** The worst score among the entries of a non-empty history. */
  function MinScore(s: seq<ScoreEntry>): (m: int)
    requires s != []
    ensures forall i :: 0 <= i < |s| ==> m <= s[i].score
    ensures exists i :: 0 <= i < |s| && s[i].score == m
  {
    if |s| == 1 then s[0].score
    else
      var m := MinScore(s[1..]);
      assert forall i :: 1 <= i < |s| ==> s[i] == s[1..][i - 1];
      if s[0].score <= m then s[0].score else m
  }

  /** The integer summaries of history `h`: all zero when it is empty. */
  function Summary(h: seq<ScoreEntry>): (st: Statistics)
    ensures st.totalGames == |h| && st.totalScore == SumScores(h)
    ensures h == [] ==> st == Statistics(0, 0, 0, 0)
    ensures h != [] ==> st.lowestScore <= st.highestScore
  {
    if h == [] then Statistics(0, 0, 0, 0)
    else Statistics(|h|, MaxScore(h), MinScore(h), SumScores(h))
  }

  /** The total of one more game is the old total plus its score. */
  lemma {:induction false} SumScoresAppend(s: seq<ScoreEntry>, e: ScoreEntry)
    ensures SumScores(s + [e]) == SumScores(s) + e.score
    decreases |s|
  {
    if s != [] {
      assert (s + [e])[1..] == s[1..] + [e];
      SumScoresAppend(s[1..], e);
    }
  }

  /** With every score at least 0 the best score is at most the total. */
  lemma {:induction false} MaxAtMostSum(s: seq<ScoreEntry>)
    requires s != [] && forall i :: 0 <= i < |s| ==> s[i].score >= 0
    ensures MaxScore(s) <= SumScores(s)
    decreases |s|
  {
    if |s| > 1 {
      assert forall i :: 0 <= i < |s[1..]| ==> s[1..][i] == s[i + 1];
      MaxAtMostSum(s[1..]);
      SumNonNegative(s[1..]);
    }
  }

  lemma {:induction false} SumNonNegative(s: seq<ScoreEntry>)
    requires forall i :: 0 <= i < |s| ==> s[i].score >= 0
    ensures SumScores(s) >= 0
    decreases |s|
  {
    if s != [] {
      assert forall i :: 0 <= i < |s[1..]| ==> s[1..][i] == s[i + 1];
      SumNonNegative(s[1..]);
    }
  }

  class ScoreManager {
    var currentScore: int
    var highScore: int
    var scoreHistory: seq<ScoreEntry>

    /** A new manager with no running score, over the history and best score
        the score file held (an empty history and 0 when there was none). */
    constructor (history: seq<ScoreEntry>, high: int)
      ensures currentScore == 0 && highScore == high && scoreHistory == history
    {
      currentScore, highScore, scoreHistory := 0, high, history;
    }

    /** Adds `points` to the running score and raises the best score to it
        when it is higher. */
    method AddScore(points: int)
      modifies this`currentScore, this`highScore
      ensures currentScore == old(currentScore) + points
      ensures highScore == if currentScore > old(highScore) then currentScore else old(highScore)
      ensures highScore >= old(highScore) && highScore >= currentScore
    {
      currentScore := currentScore + points;
      if currentScore > highScore {
        highScore := currentScore;
      }
    }

    /** Starts a new running score; the best score stays. */
    method ResetCurrentScore()
      modifies this`currentScore
      ensures currentScore == 0
    {
      currentScore := 0;
    }

    /** Records the running score as a finished game of `player` in `mode`,
        at the given time stamps, at the end of the history. */
    method SaveScore(player: string, mode: string, timestamp: string, date: string)
      modifies this`scoreHistory
      ensures scoreHistory == old(scoreHistory) + [ScoreEntry(player, currentScore, mode, timestamp, date)]
      ensures SumScores(scoreHistory) == SumScores(old(scoreHistory)) + currentScore
    {
      scoreHistory := scoreHistory + [ScoreEntry(player, currentScore, mode, timestamp, date)];
      SumScoresAppend(old(scoreHistory), ScoreEntry(player, currentScore, mode, timestamp, date));
    }

    /** Forgets every recorded game. */
    method ClearHistory()
      modifies this`scoreHistory
      ensures scoreHistory == [] && Summary(scoreHistory) == Statistics(0, 0, 0, 0)
    {
      scoreHistory := [];
    }

    /** The whole history without a limit; with one, the best `limit` games
        from the best down. */
    function GetScoreHistory(limit: Option<int>): (r: seq<ScoreEntry>)
      reads this`scoreHistory
      ensures limit.None? ==> r == scoreHistory
      ensures limit.Some? ==> NonIncreasing(r) && multiset(r) <= multiset(scoreHistory)
      ensures limit.Some? && limit.value >= 0 ==> |r| == if limit.value < |scoreHistory| then limit.value else |scoreHistory|
      ensures limit.Some? ==> KeepsTheBest(r, scoreHistory)
    {
      match limit
      case None => scoreHistory
      case Some(n) =>
        TopScoresMeaning(scoreHistory, n);
        Take(Ranked(scoreHistory), n)
    }

    /** The best `count` games, from the best down. */
    function GetTopScores(count: int): (r: seq<ScoreEntry>)
      reads this`scoreHistory
      ensures NonIncreasing(r) && multiset(r) <= multiset(scoreHistory)
      ensures count >= 0 ==> |r| == if count < |scoreHistory| then count else |scoreHistory|
      ensures |r| > 0 ==> forall e :: e in scoreHistory ==> r[0].score >= e.score
      ensures KeepsTheBest(r, scoreHistory)
      ensures r == GetScoreHistory(Some(count))
    {
      TopScoresMeaning(scoreHistory, count);
      Take(Ranked(scoreHistory), count)
    }

    /** Number of games, best, worst and total score of the history; all zero
        for an empty one. The average is not modelled. */
    function GetStatistics(): (st: Statistics)
      reads this`scoreHistory
      ensures st == Summary(scoreHistory)
      ensures scoreHistory != [] ==> forall e :: e in scoreHistory ==> st.lowestScore <= e.score <= st.highestScore
    {
      Summary(scoreHistory)
    }
  }
}
