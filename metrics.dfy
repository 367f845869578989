/**
 * `WerewolfMetricsCollector._calculate_metrics`: one pass over the per-game result records that
 * counts the games a player won and survived and adds up their response failures, then derives
 * the losses and three rates. A record is a decoded JSON object; every field the pass looks up
 * may be absent, and an absent field counts as `False` or `0`.
 */
module Metrics {
  import opened Wrappers

  /** `result["player_results"][player_name]`: the three fields the pass reads, each absent or
      present. An absent record (or an absent `player_results`) reads as the empty dictionary. */
  datatype PlayerResult = PlayerResult(won: Option<bool>, survived: Option<bool>, responseFailures: Option<int>)

  /** One game's result record; `playerResults` is `None` when the key is absent. */
  datatype GameResult = GameResult(playerResults: Option<map<string, PlayerResult>>)

  /** The `GameMetrics` dataclass; the rates are exact quotients. */
  datatype GameMetrics = GameMetrics(
    totalGames: int, wins: int, losses: int, responseFailures: int,
    survivalRate: real, winRate: real, failureRate: real)

  /** What `{}` reads as: no field present. */
  const NoResult := PlayerResult(None, None, None)

  /** `result.get("player_results", {}).get(player_name, {})`. */
  function PlayerResultOf(result: GameResult, playerName: string): (r: PlayerResult)
    ensures result.playerResults.None? ==> r == NoResult
    ensures result.playerResults.Some? && playerName !in result.playerResults.value ==> r == NoResult
    ensures result.playerResults.Some? && playerName in result.playerResults.value ==>
              r == result.playerResults.value[playerName]
  {
    match result.playerResults
    case None => NoResult
    case Some(m) => if playerName in m then m[playerName] else NoResult
  }

  /** `player_result.get("won", False)`. */
  predicate Won(r: PlayerResult) { r.won.GetOr(false) }

  /** `player_result.get("survived", False)`. */
  predicate Survived(r: PlayerResult) { r.survived.GetOr(false) }

  /** `player_result.get("response_failures", 0)`. */
  function FailuresOf(r: PlayerResult): int { r.responseFailures.GetOr(0) }

  /** The number of records in which the player won; a count of records, so at most their number. */
  function Wins(results: seq<GameResult>, playerName: string): (n: nat)
    ensures n <= |results|
  {
    if results == [] then 0
    else
      var last := results[|results| - 1];
      Wins(results[..|results| - 1], playerName) + (if Won(PlayerResultOf(last, playerName)) then 1 else 0)
  }

  /** The number of records in which the player survived; at most the number of records. */
  function Survivals(results: seq<GameResult>, playerName: string): (n: nat)
    ensures n <= |results|
  {
    if results == [] then 0
    else
      var last := results[|results| - 1];
      Survivals(results[..|results| - 1], playerName) + (if Survived(PlayerResultOf(last, playerName)) then 1 else 0)
  }

  /** The sum of the player's response failures, an absent count being 0. */
  function TotalFailures(results: seq<GameResult>, playerName: string): int
  {
    if results == [] then 0
    else TotalFailures(results[..|results| - 1], playerName) + FailuresOf(PlayerResultOf(results[|results| - 1], playerName))
  }

  /** `count / total if total > 0 else 0`, with an exact quotient for Python's float division. */
  function Rate(count: int, total: int): (r: real)
    ensures total <= 0 ==> r == 0.0
    ensures 0 <= count <= total ==> 0.0 <= r <= 1.0
    ensures 0 < total && count == total ==> r == 1.0
    ensures 0 < total ==> r * total as real == count as real
  {
    if total > 0 then count as real / total as real else 0.0
  }

  /** `_calculate_metrics(game_results, player_name)`. */
  method CalculateMetrics(gameResults: seq<GameResult>, playerName: string) returns (m: GameMetrics)
    ensures m.totalGames == |gameResults|
    ensures m.wins == Wins(gameResults, playerName)
    ensures m.responseFailures == TotalFailures(gameResults, playerName)
    ensures 0 <= m.wins <= m.totalGames && m.wins + m.losses == m.totalGames
    ensures m.winRate == Rate(m.wins, m.totalGames)
    ensures m.survivalRate == Rate(Survivals(gameResults, playerName), m.totalGames)
    ensures m.failureRate == Rate(m.responseFailures, m.totalGames)
    ensures 0.0 <= m.winRate <= 1.0 && 0.0 <= m.survivalRate <= 1.0
    ensures gameResults == [] ==> m.winRate == 0.0 && m.survivalRate == 0.0 && m.failureRate == 0.0
  {
    var totalGames := |gameResults|;
    var wins := 0;
    var survivals := 0;
    var failures := 0;
    var i := 0;
    while i < |gameResults|
      invariant 0 <= i <= |gameResults|
      invariant wins == Wins(gameResults[..i], playerName)
      invariant survivals == Survivals(gameResults[..i], playerName)
      invariant failures == TotalFailures(gameResults[..i], playerName)
    {
      var playerResult := PlayerResultOf(gameResults[i], playerName);
      assert gameResults[..i + 1][..i] == gameResults[..i];
      if playerResult.won.GetOr(false) {
        wins := wins + 1;
      }
      if playerResult.survived.GetOr(false) {
        survivals := survivals + 1;
      }
      failures := failures + playerResult.responseFailures.GetOr(0);
      i := i + 1;
    }
    assert gameResults[..i] == gameResults;
    m := GameMetrics(
      totalGames, wins, totalGames - wins, failures,
      Rate(survivals, totalGames), Rate(wins, totalGames), Rate(failures, totalGames));
  }

  /** The counts are additive over a split of the records. */
  lemma {:induction false} CountsAppend(a: seq<GameResult>, b: seq<GameResult>, playerName: string)
    ensures Wins(a + b, playerName) == Wins(a, playerName) + Wins(b, playerName)
    ensures Survivals(a + b, playerName) == Survivals(a, playerName) + Survivals(b, playerName)
    ensures TotalFailures(a + b, playerName) == TotalFailures(a, playerName) + TotalFailures(b, playerName)
    decreases |b|
  {
    if b == [] {
      assert a + b == a;
    } else {
      var b' := b[..|b| - 1];
      assert (a + b)[..|a + b| - 1] == a + b';
      assert (a + b)[|a + b| - 1] == b[|b| - 1];
      CountsAppend(a, b', playerName);
    }
  }

  /** Swapping two batches of records (the games come from a directory listing in no fixed
      order) changes none of the counts. */
  lemma CountsIgnoreOrder(a: seq<GameResult>, b: seq<GameResult>, playerName: string)
    ensures Wins(a + b, playerName) == Wins(b + a, playerName)
    ensures Survivals(a + b, playerName) == Survivals(b + a, playerName)
    ensures TotalFailures(a + b, playerName) == TotalFailures(b + a, playerName)
  {
    CountsAppend(a, b, playerName);
    CountsAppend(b, a, playerName);
  }

  /** A record that does not mention the player (no `player_results`, or no entry for them) adds
      no win, no survival and no failure. */
  lemma RecordWithoutPlayer(results: seq<GameResult>, r: GameResult, playerName: string)
    requires r.playerResults.None? || playerName !in r.playerResults.value
    ensures Wins(results + [r], playerName) == Wins(results, playerName)
    ensures Survivals(results + [r], playerName) == Survivals(results, playerName)
    ensures TotalFailures(results + [r], playerName) == TotalFailures(results, playerName)
  {
    assert (results + [r])[..|results|] == results;
  }

  /** A player record without a `won` key, or without a `survived` key, counts as a loss, or as a
      death; a record without `response_failures` adds nothing to the failures. */
  lemma MissingFieldsCountNothing(results: seq<GameResult>, r: GameResult, playerName: string)
    ensures PlayerResultOf(r, playerName).won.None? ==> Wins(results + [r], playerName) == Wins(results, playerName)
    ensures PlayerResultOf(r, playerName).survived.None? ==>
              Survivals(results + [r], playerName) == Survivals(results, playerName)
    ensures PlayerResultOf(r, playerName).responseFailures.None? ==>
              TotalFailures(results + [r], playerName) == TotalFailures(results, playerName)
  {
    assert (results + [r])[..|results|] == results;
  }

  /** The win count is exactly the number of records whose player entry says `won: true`. */
  lemma {:induction false} WinsCountsWonRecords(results: seq<GameResult>, playerName: string)
    ensures Wins(results, playerName) == |WonIndices(results, playerName, |results|)|
  {
    if results != [] {
      var k := |results| - 1;
      var prefix := results[..k];
      WinsCountsWonRecords(prefix, playerName);
      WonIndicesPrefix(results, playerName, k);
    }
  }

  /** The indices below `n` of the records the player won. */
  function WonIndices(results: seq<GameResult>, playerName: string, n: nat): (s: set<nat>)
    requires n <= |results|
    ensures forall i: nat :: i in s <==> i < n && Won(PlayerResultOf(results[i], playerName))
  {
    set i: nat | i < n && Won(PlayerResultOf(results[i], playerName))
  }

  /** The won indices of all records split into those of the prefix and, perhaps, the last one. */
  lemma WonIndicesPrefix(results: seq<GameResult>, playerName: string, k: nat)
    requires k + 1 == |results|
    ensures |WonIndices(results, playerName, k + 1)|
            == |WonIndices(results[..k], playerName, k)| + (if Won(PlayerResultOf(results[k], playerName)) then 1 else 0)
  {
    var all := WonIndices(results, playerName, k + 1);
    var before := WonIndices(results[..k], playerName, k);
    if Won(PlayerResultOf(results[k], playerName)) {
      assert all == before + {k};
    } else {
      assert all == before;
    }
  }

  /** Every game won and survived gives rates of exactly 1. */
  lemma AllWonAllSurvived(results: seq<GameResult>, playerName: string)
    requires results != []
    requires forall i :: 0 <= i < |results| ==> Won(PlayerResultOf(results[i], playerName))
    requires forall i :: 0 <= i < |results| ==> Survived(PlayerResultOf(results[i], playerName))
    ensures Rate(Wins(results, playerName), |results|) == 1.0
    ensures Rate(Survivals(results, playerName), |results|) == 1.0
  {
    AllWon(results, playerName);
    AllSurvived(results, playerName);
  }

  /** Winning every game gives as many wins as games. */
  lemma {:induction false} AllWon(results: seq<GameResult>, playerName: string)
    requires forall i :: 0 <= i < |results| ==> Won(PlayerResultOf(results[i], playerName))
    ensures Wins(results, playerName) == |results|
  {
    if results != [] {
      AllWon(results[..|results| - 1], playerName);
    }
  }

  /** Surviving every game gives as many survivals as games. */
  lemma {:induction false} AllSurvived(results: seq<GameResult>, playerName: string)
    requires forall i :: 0 <= i < |results| ==> Survived(PlayerResultOf(results[i], playerName))
    ensures Survivals(results, playerName) == |results|
  {
    if results != [] {
      AllSurvived(results[..|results| - 1], playerName);
    }
  }
}
