/** Players, their counters, and what a finished round does to them (player.go, statistics.go,
    finishRound and its helpers in state.go). */
module RoundScoring {
  import opened Cards
  import opened Piles
  import opened SpecialHands

  datatype Statistics = Statistics(
    roundsPlayed: int, roundsWon: int, sameSuitWins: int, sixPairsWins: int,
    penaltyPoints: int, pointsInflicted: int, roundsOpened: int, fastestOpeningTurn: int,
    currentStreak: int, longestStreak: int, startingStreak: int, streakBroken: bool,
    lastRecordedRound: int, forfeitOrder: int)

  const NO_STATISTICS := Statistics(0, 0, 0, 0, 0, 0, 0, 0, 0, 0, 0, false, 0, 0)

  datatype Player = Player(
    id: string, hand: seq<Card>, totalPoints: int, pointsGained: int, unadjustedTotalPoints: int,
    hasOpened: bool, forfeited: bool, statistics: Statistics)

  const SCORE_LIMIT := 100

  function ActiveFlags(players: seq<Player>): (r: seq<bool>)
    ensures |r| == |players| && forall i :: 0 <= i < |r| ==> r[i] == !players[i].forfeited
  {
    seq(|players|, i requires 0 <= i < |players| => !players[i].forfeited)
  }

  // ---------------------------------------------------------------- counters

  /** One result per round; a loss ends the current streak and the opening one. */
  function Recorded(s: Statistics, round: int, won: bool): Statistics {
    if s.lastRecordedRound == round then s
    else if won then
      s.(lastRecordedRound := round, roundsWon := s.roundsWon + 1, currentStreak := s.currentStreak + 1,
         startingStreak := if s.streakBroken then s.startingStreak else s.startingStreak + 1,
         longestStreak := if s.currentStreak + 1 > s.longestStreak then s.currentStreak + 1 else s.longestStreak)
    else s.(lastRecordedRound := round, currentStreak := 0, streakBroken := true)
  }

  // ---------------------------------------------------------------- a finished round

  function RoundPoints(p: Player, isWinner: bool): nat {
    if isWinner || p.forfeited then 0 else HandPoints(p.hand)
  }

  /** Everyone still playing but the winner adds the points left in hand. */
  function Scored(p: Player, round: int, isWinner: bool): Player {
    var points := RoundPoints(p, isWinner);
    var s := if p.statistics.roundsPlayed >= round then Recorded(p.statistics, round, isWinner) else p.statistics;
    p.(pointsGained := points, totalPoints := p.totalPoints + points, unadjustedTotalPoints := p.totalPoints + points,
       statistics := s.(penaltyPoints := s.penaltyPoints + points))
  }

  function Inflicted(players: seq<Player>, winner: int): nat {
    if players == [] then 0
    else
      var k := |players| - 1;
      Inflicted(players[..k], winner) + RoundPoints(players[k], k == winner)
  }

  ghost function Credited(p: Player, inflicted: int): Player {
    var s := p.statistics.(pointsInflicted := p.statistics.pointsInflicted + inflicted);
    p.(statistics := if OneSuit(p.hand) then s.(sameSuitWins := s.sameSuitWins + 1)
                     else if SixPairs(p.hand) then s.(sixPairsWins := s.sixPairsWins + 1) else s)
  }

  ghost function ScoredPlayers(players: seq<Player>, round: int, winner: int): (r: seq<Player>)
    requires 0 <= winner < |players|
    ensures |r| == |players|
    ensures forall i :: 0 <= i < |r| ==>
              var q := Scored(players[i], round, i == winner);
              r[i] == if i == winner then Credited(q, Inflicted(players, winner)) else q
  {
    seq(|players|, i requires 0 <= i < |players| =>
      var q := Scored(players[i], round, i == winner);
      if i == winner then Credited(q, Inflicted(players, winner)) else q)
  }

  predicate OthersOverLimit(players: seq<Player>, winner: int) {
    forall i :: 0 <= i < |players| && i != winner && !players[i].forfeited ==> players[i].totalPoints > SCORE_LIMIT
  }

  /** The best of the active totals within the limit, or -1. */
  function HighestRemaining(players: seq<Player>): (h: int)
    ensures -1 <= h <= SCORE_LIMIT
    ensures forall i :: 0 <= i < |players| && !players[i].forfeited && players[i].totalPoints <= SCORE_LIMIT ==>
              players[i].totalPoints <= h
    ensures h >= 0 ==> exists i :: 0 <= i < |players| && !players[i].forfeited && players[i].totalPoints == h
  {
    if players == [] then -1
    else
      var k := |players| - 1;
      var h := HighestRemaining(players[..k]);
      if !players[k].forfeited && players[k].totalPoints <= SCORE_LIMIT && players[k].totalPoints > h then
        players[k].totalPoints else h
  }

  /** Totals over the limit fall back to the best remaining one. */
  function Lowered(p: Player, highest: int): Player {
    if p.forfeited || p.totalPoints <= SCORE_LIMIT then p else p.(totalPoints := highest)
  }

  function Adjusted(players: seq<Player>): (r: seq<Player>)
    ensures |r| == |players|
  {
    var h := HighestRemaining(players);
    if h < 0 then players else seq(|players|, i requires 0 <= i < |players| => Lowered(players[i], h))
  }

  // ---------------------------------------------------------------- what scoring keeps

  /** Active players' totals stay within the limit while the game goes on. */
  predicate TotalsWithinLimit(players: seq<Player>) {
    forall i :: 0 <= i < |players| && !players[i].forfeited ==> 0 <= players[i].totalPoints <= SCORE_LIMIT
  }

  lemma AdjustmentRestoresLimit(players: seq<Player>, round: int, winner: int)
    requires 0 <= winner < |players| && !players[winner].forfeited && TotalsWithinLimit(players)
    ensures var after := Adjusted(ScoredPlayers(players, round, winner));
            TotalsWithinLimit(after) && |after| == |players| &&
            forall i :: 0 <= i < |players| ==>
              after[i].forfeited == players[i].forfeited && after[i].hand == players[i].hand
  {
    hide HandPoints, OneSuit, SixPairs, Recorded;
    var scored := ScoredPlayers(players, round, winner);
    assert scored[winner].totalPoints == players[winner].totalPoints;
    assert HighestRemaining(scored) >= 0;
  }

  function PenaltySum(players: seq<Player>): int {
    if players == [] then 0 else PenaltySum(players[..|players| - 1]) + players[|players| - 1].statistics.penaltyPoints
  }

  function InflictedSum(players: seq<Player>): int {
    if players == [] then 0
    else InflictedSum(players[..|players| - 1]) + players[|players| - 1].statistics.pointsInflicted
  }

  lemma {:induction false} PenaltySumUpdate(players: seq<Player>, i: nat, p: Player)
    requires i < |players|
    ensures PenaltySum(players[i := p]) ==
            PenaltySum(players) - players[i].statistics.penaltyPoints + p.statistics.penaltyPoints
    ensures InflictedSum(players[i := p]) ==
            InflictedSum(players) - players[i].statistics.pointsInflicted + p.statistics.pointsInflicted
  {
    var k := |players| - 1;
    if i == k {
      assert players[i := p][..k] == players[..k];
    } else {
      PenaltySumUpdate(players[..k], i, p);
      assert players[i := p][..k] == players[..k][i := p];
    }
  }

  lemma {:induction false} PenaltiesAdd(players: seq<Player>, after: seq<Player>, winner: int, round: int)
    requires |after| == |players|
    requires forall i :: 0 <= i < |players| ==> after[i] == Scored(players[i], round, i == winner)
    ensures PenaltySum(after) == PenaltySum(players) + Inflicted(players, winner)
    ensures InflictedSum(after) == InflictedSum(players)
  {
    if players != [] {
      var k := |players| - 1;
      PenaltiesAdd(players[..k], after[..k], winner, round);
    }
  }

  lemma {:induction false} SameStatisticsSameSums(players: seq<Player>, after: seq<Player>)
    requires |after| == |players|
    requires forall i :: 0 <= i < |players| ==>
               after[i].statistics.penaltyPoints == players[i].statistics.penaltyPoints &&
               after[i].statistics.pointsInflicted == players[i].statistics.pointsInflicted
    ensures PenaltySum(after) == PenaltySum(players) && InflictedSum(after) == InflictedSum(players)
  {
    if players != [] {
      var k := |players| - 1;
      SameStatisticsSameSums(players[..k], after[..k]);
    }
  }

  lemma AdjustmentKeepsSums(players: seq<Player>)
    ensures PenaltySum(Adjusted(players)) == PenaltySum(players) &&
            InflictedSum(Adjusted(players)) == InflictedSum(players)
  {
    SameStatisticsSameSums(players, Adjusted(players));
  }

  /** Every penalty point one player takes is inflicted by the winner. */
  lemma ScoringBalances(players: seq<Player>, round: int, winner: int)
    requires 0 <= winner < |players|
    ensures var after := ScoredPlayers(players, round, winner);
            PenaltySum(after) - PenaltySum(players) ==
            InflictedSum(after) - InflictedSum(players) == Inflicted(players, winner)
  {
    hide HandPoints, OneSuit, SixPairs, Recorded, RoundPoints, PenaltySum, InflictedSum, Inflicted;
    var after := ScoredPlayers(players, round, winner);
    var before := seq(|players|, i requires 0 <= i < |players| => Scored(players[i], round, i == winner));
    PenaltiesAdd(players, before, winner, round);
    PenaltySumUpdate(before, winner, after[winner]);
    assert before[winner := after[winner]] == after;
  }
}
