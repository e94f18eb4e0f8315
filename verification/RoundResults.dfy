/** What a finished round leaves behind, player by player, in terms of the hands and totals before it. */
module RoundResults {
  import opened Cards
  import opened Piles
  import opened SpecialHands
  import opened RoundScoring
  import opened GameModel
  import opened GameInvariants

  // ---------------------------------------------------------------- what a hand costs

  /** Jokers cost 20, aces and cards from the ten up 10, others their rank. */
  lemma CardCosts(c: Card)
    ensures CardPoints(c) == if c == Joker then 20 else if c.rank == 1 || 10 <= c.rank then 10 else c.rank
  {
  }

  /** A hand costs what its cards cost, but a single ace costs 1. */
  lemma HandCosts(hand: seq<Card>, c: Card)
    ensures HandPoints([]) == 0
    ensures HandPoints([c]) == if c.Natural? && c.rank == 1 then 1 else CardPoints(c)
    ensures |hand| >= 2 ==> HandPoints(hand + [c]) == HandPoints(hand) + CardPoints(c)
    ensures |hand| == 1 ==> HandPoints(hand + [c]) == CardPoints(hand[0]) + CardPoints(c)
  {
    assert (hand + [c])[..|hand + [c]| - 1] == hand && [c][..|[c]| - 1] == [];
    assert PointSum([c]) == PointSum([]) + CardPoints(c);
    if |hand| == 1 {
      assert hand[..|hand| - 1] == [];
      assert PointSum(hand) == PointSum([]) + CardPoints(hand[0]);
      assert PointSum(hand + [c]) == PointSum(hand) + CardPoints(c);
    }
  }

  // ---------------------------------------------------------------- totals

  /** What the i-th player's total comes to before anybody is brought back to the limit. */
  function Sum(s: State, w: int, i: int): int
    requires 0 <= i < |s.players|
  {
    var p := s.players[i];
    if i == w || p.forfeited then p.totalPoints else p.totalPoints + HandPoints(p.hand)
  }

  predicate ActiveIn(s: State, i: int) {
    0 <= i < |s.players| && !s.players[i].forfeited
  }

  /** Every player still in the game but the winner is over 100. */
  ghost predicate AllOthersOver(s: State, w: int) {
    forall i :: ActiveIn(s, i) && i != w ==> Sum(s, w, i) > 100
  }

  /** The largest of the active players' sums that are not over 100. */
  ghost predicate LargestWithin(s: State, w: int, h: int) {
    && h <= 100 && (exists i :: ActiveIn(s, i) && Sum(s, w, i) == h)
    && forall i :: ActiveIn(s, i) && Sum(s, w, i) <= 100 ==> Sum(s, w, i) <= h
  }

  lemma ScoredSums(s: State, w: int, i: int)
    requires 0 <= w < |s.players| && 0 <= i < |s.players|
    ensures var q := ScoredPlayers(s.players, s.round, w)[i];
            q.totalPoints == Sum(s, w, i) && q.unadjustedTotalPoints == Sum(s, w, i) &&
            q.pointsGained == Sum(s, w, i) - s.players[i].totalPoints && q.forfeited == s.players[i].forfeited &&
            q.hand == s.players[i].hand && q.id == s.players[i].id && q.hasOpened == s.players[i].hasOpened
  {
    hide HandPoints, Recorded, OneSuit, SixPairs, Inflicted;
  }

  /** The round ends the game exactly if it is a quick game or everybody else is over 100. */
  lemma RoundEndsGameIff(s: State, w: int)
    requires 0 <= w < |s.players|
    ensures FinishRound(s, w).phase == if s.mode == Quick || AllOthersOver(s, w) then GameOver else RoundOver
    ensures var t := FinishRound(s, w);
            t.roundWinnerIndex == w &&
            t.turn == s.turn.(hasDrawn := false, mustUseDiscardDraw := false, discardDrawCard := None) &&
            t == s.(players := t.players, phase := t.phase, roundWinnerIndex := w, turn := t.turn) &&
            |t.players| == |s.players|
  {
    hide Sum, ScoredPlayers, Adjusted;
    var scored := ScoredPlayers(s.players, s.round, w);
    forall i | 0 <= i < |s.players|
      ensures scored[i].totalPoints == Sum(s, w, i) && scored[i].forfeited == s.players[i].forfeited
    {
      ScoredSums(s, w, i);
    }
    assert OthersOverLimit(scored, w) <==> AllOthersOver(s, w);
  }

  /** Totals: the points left in hand are added; if the game goes on, a player over 100 falls back to the largest
      total within 100. */
  lemma TotalsAfterRound(s: State, w: int, i: int)
    requires 0 <= w < |s.players| && 0 <= i < |s.players| && TotalsWithinLimit(s.players)
    ensures var t := FinishRound(s, w); var p := t.players[i];
            && |t.players| == |s.players| && p.hand == s.players[i].hand && p.forfeited == s.players[i].forfeited
            && p.pointsGained == Sum(s, w, i) - s.players[i].totalPoints && p.unadjustedTotalPoints == Sum(s, w, i)
            && if t.phase == GameOver || !ActiveIn(s, i) || Sum(s, w, i) <= 100 then p.totalPoints == Sum(s, w, i)
               else LargestWithin(s, w, p.totalPoints)
  {
    hide Sum, ScoredPlayers;
    var scored := ScoredPlayers(s.players, s.round, w);
    forall k | 0 <= k < |s.players|
      ensures var q := scored[k];
              q.totalPoints == Sum(s, w, k) && q.unadjustedTotalPoints == Sum(s, w, k) &&
              q.pointsGained == Sum(s, w, k) - s.players[k].totalPoints && q.forfeited == s.players[k].forfeited &&
              q.hand == s.players[k].hand && (ActiveIn(s, k) ==> Sum(s, w, k) >= 0)
    {
      ScoredSums(s, w, k);
      SumGrows(s, w, k);
    }
    RoundEndsGameIff(s, w);
    if FinishRound(s, w).phase == RoundOver {
      var j :| ActiveIn(s, j) && j != w && Sum(s, w, j) <= 100;
      assert scored[j].totalPoints == Sum(s, w, j);
    }
  }

  lemma SumGrows(s: State, w: int, i: int)
    requires 0 <= i < |s.players|
    ensures Sum(s, w, i) >= s.players[i].totalPoints
  {
  }

  // ---------------------------------------------------------------- counters

  /** All the points the others were left with. */
  function AllLeft(s: State, w: int, n: nat): int
    requires n <= |s.players|
  {
    if n == 0 then 0 else AllLeft(s, w, n - 1) + Sum(s, w, n - 1) - s.players[n - 1].totalPoints
  }

  lemma {:induction false} LeftIsInflicted(s: State, w: int, n: nat)
    requires n <= |s.players|
    ensures AllLeft(s, w, n) == Inflicted(s.players[..n], w)
  {
    hide HandPoints;
    if n > 0 {
      LeftIsInflicted(s, w, n - 1);
      assert s.players[..n][..n - 1] == s.players[..n - 1];
    }
  }

  /** A loser is charged the points left in hand, the winner credited with all of them, and with a special win if
      the hand is one; the round counts as won for the winner only, once. */
  lemma CountersAfterRound(s: State, w: int, i: int)
    requires 0 <= w < |s.players| && 0 <= i < |s.players|
    ensures var before, after := s.players[i].statistics, FinishRound(s, w).players[i].statistics;
            var hand := s.players[i].hand;
            && after.penaltyPoints == before.penaltyPoints + Sum(s, w, i) - s.players[i].totalPoints
            && after.pointsInflicted == before.pointsInflicted + (if i == w then AllLeft(s, w, |s.players|) else 0)
            && after.sameSuitWins == before.sameSuitWins + (if i == w && OneSuit(hand) then 1 else 0)
            && after.sixPairsWins == before.sixPairsWins + (if i == w && !OneSuit(hand) && SixPairs(hand) then 1 else 0)
            && after.roundsWon == before.roundsWon +
                 (if i == w && before.roundsPlayed >= s.round && before.lastRecordedRound != s.round then 1 else 0)
            && after.lastRecordedRound == (if before.roundsPlayed >= s.round then s.round else before.lastRecordedRound)
            && after.roundsPlayed == before.roundsPlayed && after.roundsOpened == before.roundsOpened
  {
    hide HandPoints, OneSuit, SixPairs, Inflicted, HighestRemaining, OthersOverLimit;
    LeftIsInflicted(s, w, |s.players|);
    assert s.players[..|s.players|] == s.players;
    var scored := ScoredPlayers(s.players, s.round, w);
    assert FinishRound(s, w).players[i].statistics == scored[i].statistics;
  }
}
