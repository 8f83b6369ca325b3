/** The persistent player statistics (src/store/statsStore.ts): the record
    as a value with one transition function per action, the facts those
    transitions keep, and the store as a class whose methods update its
    fields in place. */
module Stats {
  import opened Cards

  /** The statistics record (GameStats); `None` stands for JavaScript's null. */
  datatype GameStats = GameStats(
    gamesPlayed: int,
    gamesWon: int,
    currentStreak: int,
    bestStreak: int,
    bestScore: int,
    bestTime: Option<int>,
    leastMoves: Option<int>,
    dailyChallengesCompleted: seq<JsString>)

  /** The values a fresh store starts with, and the ones resetStats restores. */
  function InitialStats(): GameStats
  {
    GameStats(0, 0, 0, 0, 0, None, None, [])
  }

  /** recordGameStart */
  function AfterGameStart(s: GameStats): GameStats
  {
    s.(gamesPlayed := s.gamesPlayed + 1)
  }

  /** A best-so-far slot that is empty until the first win, then keeps the
      smallest value seen (bestTime, leastMoves). */
  function KeepLeast(best: Option<int>, value: int): Option<int>
  {
    if best.None? then Some(value) else Some(Min(best.value, value))
  }

  /** recordWin(score, time, moves) */
  function AfterWin(s: GameStats, score: int, time: int, moves: int): GameStats
  {
    var newStreak := s.currentStreak + 1;
    s.(gamesWon := s.gamesWon + 1,
       currentStreak := newStreak,
       bestStreak := Max(s.bestStreak, newStreak),
       bestScore := Max(s.bestScore, score),
       bestTime := KeepLeast(s.bestTime, time),
       leastMoves := KeepLeast(s.leastMoves, moves))
  }

  /** recordLoss */
  function AfterLoss(s: GameStats): GameStats
  {
    s.(currentStreak := 0)
  }

  /** markDailyChallengeCompleted(date): a date already listed changes nothing. */
  function AfterDailyChallenge(s: GameStats, date: JsString): GameStats
  {
    if date in s.dailyChallengesCompleted then s
    else s.(dailyChallengesCompleted := s.dailyChallengesCompleted + [date])
  }

  predicate NoDuplicates(dates: seq<JsString>)
  {
    forall i, j :: 0 <= i < j < |dates| ==> dates[i] != dates[j]
  }

  /** What every sequence of store actions keeps: streaks are ordered and
      bounded by the wins, the best time and least moves exist exactly when
      some game has been won, and no daily challenge date is listed twice. */
  predicate Consistent(s: GameStats)
  {
    0 <= s.currentStreak <= s.bestStreak <= s.gamesWon
    && 0 <= s.gamesPlayed
    && (s.bestTime.Some? <==> s.gamesWon > 0)
    && (s.leastMoves.Some? <==> s.gamesWon > 0)
    && NoDuplicates(s.dailyChallengesCompleted)
  }

  lemma InitialConsistent()
    ensures Consistent(InitialStats())
  {
  }

  lemma GameStartEffect(s: GameStats)
    ensures Consistent(s) ==> Consistent(AfterGameStart(s))
    ensures AfterGameStart(s).gamesPlayed == s.gamesPlayed + 1
    ensures AfterGameStart(s).(gamesPlayed := s.gamesPlayed) == s
  {
  }

  /** recordLoss ends the current streak and touches nothing else. */
  lemma LossEffect(s: GameStats)
    ensures Consistent(s) ==> Consistent(AfterLoss(s))
    ensures AfterLoss(s).currentStreak == 0
    ensures AfterLoss(s).(currentStreak := s.currentStreak) == s
  {
  }

  /** recordWin: one more win and one longer streak, a best streak that
      covers it, and records that only ever improve. */
  lemma WinEffect(s: GameStats, score: int, time: int, moves: int)
    ensures var r := AfterWin(s, score, time, moves);
      && r.gamesWon == s.gamesWon + 1
      && r.currentStreak == s.currentStreak + 1
      && r.currentStreak <= r.bestStreak
      && s.bestStreak <= r.bestStreak
      && s.bestScore <= r.bestScore && score <= r.bestScore
      && r.bestTime.Some? && r.bestTime.value <= time
      && (s.bestTime.Some? ==> r.bestTime.value <= s.bestTime.value)
      && r.leastMoves.Some? && r.leastMoves.value <= moves
      && (s.leastMoves.Some? ==> r.leastMoves.value <= s.leastMoves.value)
      && r.gamesPlayed == s.gamesPlayed
      && r.dailyChallengesCompleted == s.dailyChallengesCompleted
    ensures Consistent(s) ==> Consistent(AfterWin(s, score, time, moves))
  {
  }

  /** After markDailyChallengeCompleted the date is listed, the list holds
      exactly the old dates and this one, and no date appears twice if none
      did before. */
  lemma DailyChallengeEffect(s: GameStats, date: JsString)
    ensures var r := AfterDailyChallenge(s, date);
      && date in r.dailyChallengesCompleted
      && (forall d :: d in r.dailyChallengesCompleted <==> d in s.dailyChallengesCompleted || d == date)
      && r.(dailyChallengesCompleted := s.dailyChallengesCompleted) == s
    ensures NoDuplicates(s.dailyChallengesCompleted) ==> NoDuplicates(AfterDailyChallenge(s, date).dailyChallengesCompleted)
    ensures Consistent(s) ==> Consistent(AfterDailyChallenge(s, date))
  {
  }

  /** Marking the same date twice is the same as marking it once. */
  lemma DailyChallengeIdempotent(s: GameStats, date: JsString)
    ensures AfterDailyChallenge(AfterDailyChallenge(s, date), date) == AfterDailyChallenge(s, date)
  {
  }

  /** One store action, as the game view issues them. */
  datatype StatsAction =
    | GameStart
    | Win(score: int, time: int, moves: int)
    | Loss
    | DailyChallenge(date: JsString)
    | Reset

  function Step(s: GameStats, a: StatsAction): GameStats
  {
    match a
    case GameStart => AfterGameStart(s)
    case Win(score, time, moves) => AfterWin(s, score, time, moves)
    case Loss => AfterLoss(s)
    case DailyChallenge(date) => AfterDailyChallenge(s, date)
    case Reset => InitialStats()
  }

  /** The record after the actions in order, the first applied first. */
  function Replay(s: GameStats, actions: seq<StatsAction>): GameStats
    decreases |actions|
  {
    if actions == [] then s
    else Step(Replay(s, actions[..|actions| - 1]), actions[|actions| - 1])
  }

  /** Every action keeps the record consistent, so every history does. */
  lemma StepConsistent(s: GameStats, a: StatsAction)
    requires Consistent(s)
    ensures Consistent(Step(s, a))
  {
    match a
    case GameStart => GameStartEffect(s);
    case Win(score, time, moves) => WinEffect(s, score, time, moves);
    case Loss => LossEffect(s);
    case DailyChallenge(date) => DailyChallengeEffect(s, date);
    case Reset => InitialConsistent();
  }

  lemma {:induction false} ReplayConsistent(s: GameStats, actions: seq<StatsAction>)
    requires Consistent(s)
    ensures Consistent(Replay(s, actions))
    decreases |actions|
  {
    if actions != [] {
      ReplayConsistent(s, actions[..|actions| - 1]);
      StepConsistent(Replay(s, actions[..|actions| - 1]), actions[|actions| - 1]);
    }
  }

  /** The number of wins at the end of the history since its last loss or
      reset: the streak those actions leave behind. */
  function TrailingWins(actions: seq<StatsAction>): nat
    decreases |actions|
  {
    if actions == [] then 0
    else
      match actions[|actions| - 1]
      case Win(_, _, _) => TrailingWins(actions[..|actions| - 1]) + 1
      case Loss => 0
      case Reset => 0
      case _ => TrailingWins(actions[..|actions| - 1])
  }

  predicate EndsStreak(a: StatsAction)
  {
    a.Loss? || a.Reset?
  }

  /** currentStreak counts the wins since the last loss or reset; with
      neither in the history it extends the streak the history started on. */
  lemma {:induction false} ReplayStreak(s: GameStats, actions: seq<StatsAction>)
    ensures Replay(s, actions).currentStreak ==
      TrailingWins(actions)
      + (if exists k :: 0 <= k < |actions| && EndsStreak(actions[k]) then 0 else s.currentStreak)
    decreases |actions|
  {
    if actions != [] {
      var front := actions[..|actions| - 1];
      ReplayStreak(s, front);
      assert forall k :: 0 <= k < |front| ==> front[k] == actions[k];
    }
  }

  /** A history of wins only, as recordWin receives them. */
  predicate AllWins(actions: seq<StatsAction>)
  {
    forall k :: 0 <= k < |actions| ==> actions[k].Win?
  }

  /** After a run of wins the best score is the largest of the old best and
      every score recorded, and the best time and least moves are the
      smallest of the old value (if any) and every value recorded. */
  lemma {:induction false} ReplayWinsRecords(s: GameStats, wins: seq<StatsAction>)
    requires AllWins(wins)
    ensures var r := Replay(s, wins);
      && r.bestScore >= s.bestScore
      && (forall k :: 0 <= k < |wins| ==> r.bestScore >= wins[k].score)
      && (r.bestScore == s.bestScore || exists k :: 0 <= k < |wins| && r.bestScore == wins[k].score)
    ensures var r := Replay(s, wins);
      && (r.bestTime.None? <==> s.bestTime.None? && wins == [])
      && (r.bestTime.Some? ==>
            && (s.bestTime.Some? ==> r.bestTime.value <= s.bestTime.value)
            && (forall k :: 0 <= k < |wins| ==> r.bestTime.value <= wins[k].time)
            && (r.bestTime == s.bestTime || exists k :: 0 <= k < |wins| && r.bestTime.value == wins[k].time))
    ensures var r := Replay(s, wins);
      && (r.leastMoves.None? <==> s.leastMoves.None? && wins == [])
      && (r.leastMoves.Some? ==>
            && (s.leastMoves.Some? ==> r.leastMoves.value <= s.leastMoves.value)
            && (forall k :: 0 <= k < |wins| ==> r.leastMoves.value <= wins[k].moves)
            && (r.leastMoves == s.leastMoves || exists k :: 0 <= k < |wins| && r.leastMoves.value == wins[k].moves))
    decreases |wins|
  {
    if wins != [] {
      var front := wins[..|wins| - 1];
      var last := wins[|wins| - 1];
      assert forall k :: 0 <= k < |front| ==> front[k] == wins[k];
      ReplayWinsRecords(s, front);
      WinEffect(Replay(s, front), last.score, last.time, last.moves);
    }
  }

  /** The statistics store (useStatsStore). Each action writes only the
      fields its `set` call names. */
  class StatsStore {
    var gamesPlayed: int
    var gamesWon: int
    var currentStreak: int
    var bestStreak: int
    var bestScore: int
    var bestTime: Option<int>
    var leastMoves: Option<int>
    var dailyChallengesCompleted: seq<JsString>

    function Stats(): GameStats
      reads this
    {
      GameStats(gamesPlayed, gamesWon, currentStreak, bestStreak, bestScore,
                bestTime, leastMoves, dailyChallengesCompleted)
    }

    ghost predicate Valid()
      reads this
    {
      Consistent(Stats())
    }

    constructor ()
      ensures Stats() == InitialStats() && Valid()
    {
      gamesPlayed, gamesWon, currentStreak, bestStreak, bestScore := 0, 0, 0, 0, 0;
      bestTime, leastMoves := None, None;
      dailyChallengesCompleted := [];
    }

    method RecordGameStart()
      modifies this`gamesPlayed
      ensures Stats() == AfterGameStart(old(Stats()))
      ensures old(Valid()) ==> Valid()
    {
      gamesPlayed := gamesPlayed + 1;
    }

    method RecordWin(score: int, time: int, moves: int)
      modifies this`gamesWon, this`currentStreak, this`bestStreak, this`bestScore, this`bestTime, this`leastMoves
      ensures Stats() == AfterWin(old(Stats()), score, time, moves)
      ensures old(Valid()) ==> Valid()
    {
      var newStreak := currentStreak + 1;
      gamesWon := gamesWon + 1;
      currentStreak := newStreak;
      bestStreak := Max(bestStreak, newStreak);
      bestScore := Max(bestScore, score);
      bestTime := if bestTime.None? then Some(time) else Some(Min(bestTime.value, time));
      leastMoves := if leastMoves.None? then Some(moves) else Some(Min(leastMoves.value, moves));
      WinEffect(old(Stats()), score, time, moves);
    }

    method RecordLoss()
      modifies this`currentStreak
      ensures Stats() == AfterLoss(old(Stats()))
      ensures old(Valid()) ==> Valid()
    {
      currentStreak := 0;
    }

    method MarkDailyChallengeCompleted(date: JsString)
      modifies this`dailyChallengesCompleted
      ensures Stats() == AfterDailyChallenge(old(Stats()), date)
      ensures old(Valid()) ==> Valid()
    {
      if date in dailyChallengesCompleted {
        return;
      }
      dailyChallengesCompleted := dailyChallengesCompleted + [date];
      DailyChallengeEffect(old(Stats()), date);
    }

    method ResetStats()
      modifies this
      ensures Stats() == InitialStats() && Valid()
    {
      gamesPlayed, gamesWon, currentStreak, bestStreak, bestScore := 0, 0, 0, 0, 0;
      bestTime, leastMoves := None, None;
      dailyChallengesCompleted := [];
    }
  }
}
