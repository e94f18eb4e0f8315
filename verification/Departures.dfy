/** What a forfeit does to the player who leaves, to the others, and to the game. */
module Departures {
  import opened Cards
  import opened Rotation
  import opened RoundScoring
  import opened GameModel
  import opened GameInvariants
  import opened GameRounds
  import opened RoundResults
  import opened RoundStarts
  import D = Dealing

  /** The only player left in the game once seat `i` is out. */
  ghost predicate LastOne(s: State, i: int, j: int) {
    j != i && ActiveIn(s, j) && forall k :: k != i && ActiveIn(s, k) ==> k == j
  }

  /** A forfeit succeeds exactly if a round is on or over and the player is still in the game. */
  lemma ForfeitIff(s: State, id: string, shuffled: seq<Card>)
    requires 0 <= s.turn.playerIndex && (|s.players| > 0 ==> s.turn.playerIndex < |s.players|)
    requires DistinctIds(s.players)
    ensures Forfeit(s, id, shuffled).error.None? <==>
              (s.phase == InProgress || s.phase == RoundOver) && exists i :: ActiveIn(s, i) && s.players[i].id == id
    ensures Forfeit(s, id, shuffled).error.Some? ==> Forfeit(s, id, shuffled).state == s
  {
    hide NextForfeitOrder, RecordedAll, AdvanceTurn, D.ActiveIndexes;
    var i := SeatOf(s.players, id);
    if j :| ActiveIn(s, j) && s.players[j].id == id {
      assert i <= j;
      assert i == j;
    }
  }

  /** The player leaves with an empty hand and an order above everybody else's; the hand goes into the draw pile. */
  ghost predicate Gone(s: State, i: int, p: Player) {
    0 <= i < |s.players| &&
    var old' := s.players[i];
    && p.id == old'.id && p.hand == [] && p.forfeited && p.totalPoints == p.unadjustedTotalPoints == old'.totalPoints
    && p.pointsGained == 0 && p.hasOpened == old'.hasOpened && p.statistics.forfeitOrder >= 1
    && forall k :: 0 <= k < |s.players| && k != i ==> s.players[k].statistics.forfeitOrder < p.statistics.forfeitOrder
  }

  lemma OneLeftIff(s: State, i: int, players: seq<Player>)
    requires ActiveIn(s, i) && |players| == |s.players|
    requires forall k :: 0 <= k < |players| ==> players[k].forfeited == (k == i || s.players[k].forfeited)
    ensures var active := D.ActiveIndexes(players);
            (|active| == 1 <==> exists j :: LastOne(s, i, j)) && (|active| == 1 ==> LastOne(s, i, active[0]))
  {
    var active := D.ActiveIndexes(players);
    forall k: int
      ensures k in active <==> k != i && ActiveIn(s, k)
    {
      OnlyActive(players, k);
    }
    assert |active| >= 2 ==> active[0] < active[1] && active[0] in active && active[1] in active;
    if |active| == 1 {
      assert active[0] in active;
      assert LastOne(s, i, active[0]);
    }
    if j :| LastOne(s, i, j) {
      assert j in active;
      forall a | 0 <= a < |active|
        ensures active[a] == j
      {
        assert active[a] in active;
      }
    }
  }

  /** If one player is left the game ends and that player has won it; otherwise the others play on, the next one
      if it was the leaver's turn. */
  lemma ForfeitResult(s: State, id: string, shuffled: seq<Card>) returns (i: int)
    requires 0 <= s.turn.playerIndex && (|s.players| > 0 ==> s.turn.playerIndex < |s.players|)
    requires Forfeit(s, id, shuffled).error.None?
    ensures var t := Forfeit(s, id, shuffled).state;
            && ActiveIn(s, i) && s.players[i].id == id && |t.players| == |s.players| && Gone(s, i, t.players[i])
            && t.table == s.table && t.round == s.round
            && (forall k :: 0 <= k < |s.players| && k != i ==>
                  t.players[k] == s.players[k].(statistics := t.players[k].statistics))
            && (t.phase == GameOver <==> exists j :: LastOne(s, i, j))
            && if t.phase == GameOver then
                 && LastOne(s, i, t.roundWinnerIndex)
                 && t.drawPile == (if s.players[i].hand == [] then s.drawPile else shuffled)
                 && t.discardPile == s.discardPile
               else
                 && t.phase == s.phase && (forall k :: 0 <= k < |s.players| && k != i ==> t.players[k] == s.players[k])
                 && if s.phase == InProgress && s.turn.playerIndex == i then
                      && IsNext(ActiveFlags(t.players), i, t.turn.playerIndex)
                      && t.turn == Turn(s.turn.number + 1, t.turn.playerIndex, false, false, None)
                    else
                      && t.turn == s.turn && t.discardPile == s.discardPile
                      && t.drawPile == if s.players[i].hand == [] then s.drawPile else shuffled
  {
    hide NextForfeitOrder, AdvanceTurn, D.ActiveIndexes;
    i := SeatOf(s.players, id);
    var t := Without(s, i, shuffled);
    OneLeftIff(s, i, t.players);
    AdvancedIs(t);
  }

  lemma AdvancedIs(t: State)
    requires 0 <= t.turn.playerIndex < |t.players|
    ensures var u := AdvanceTurn(t);
            && u == t.(turn := u.turn, drawPile := u.drawPile, discardPile := u.discardPile)
            && IsNext(ActiveFlags(t.players), t.turn.playerIndex, u.turn.playerIndex)
            && u.turn == Turn(t.turn.number + 1, u.turn.playerIndex, false, false, None)
  {
    hide NextOf;
  }

  /** The round that ends with the last forfeit counts as won for the one who stays, once, and as lost for the
      others who played it. */
  lemma LastOneCounted(s: State, id: string, shuffled: seq<Card>, k: int)
    requires 0 <= s.turn.playerIndex && (|s.players| > 0 ==> s.turn.playerIndex < |s.players|)
    requires Forfeit(s, id, shuffled).error.None? && Forfeit(s, id, shuffled).state.phase == GameOver
    requires 0 <= k < |s.players| && (s.phase == InProgress || s.phase == RoundOver)
    ensures var t := Forfeit(s, id, shuffled).state;
            |t.players| == |s.players| &&
            var a, b := s.players[k].statistics, t.players[k].statistics;
            var counts := a.roundsPlayed >= s.round && a.lastRecordedRound != s.round;
            && b.roundsWon == a.roundsWon + (if counts && k == t.roundWinnerIndex then 1 else 0)
            && b.lastRecordedRound == (if counts then s.round else a.lastRecordedRound)
            && (counts && k != t.roundWinnerIndex ==> b.currentStreak == 0 && b.streakBroken)
            && b.penaltyPoints == a.penaltyPoints && b.pointsInflicted == a.pointsInflicted
  {
    hide NextForfeitOrder, D.ActiveIndexes, NextOf;
    var i := ForfeitResult(s, id, shuffled);
  }
}
