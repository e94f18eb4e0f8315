/** The engine's counters against the store's checks (validatePlayerStatistics and validateCheckpoint in
    database/statistics.go): every game recorded by a run of successful operations is accepted, unless a
    round after the first was won straight from the deal. */
module PlayerRecords {
  import opened Cards
  import opened Compositions
  import opened Piles
  import opened TablePlay
  import opened PlayedCards
  import opened Rotation
  import opened SpecialHands
  import opened RoundScoring
  import opened GameModel
  import opened GameInvariants
  import opened GameRounds
  import opened GameRuns
  import opened Persistence
  import D = Dealing
  import Placements

  // ---------------------------------------------------------------- the store's checks

  /** Every check on a player's counters but the one on special wins. */
  predicate PlainAccepted(s: Statistics) {
    && s.roundsPlayed >= 0 && s.roundsWon >= 0 && s.sameSuitWins >= 0 && s.sixPairsWins >= 0 && s.roundsOpened >= 0
    && s.penaltyPoints >= 0 && s.pointsInflicted >= 0
    && s.fastestOpeningTurn >= 0 && s.startingStreak >= 0 && s.currentStreak >= 0 && s.longestStreak >= 0
    && s.roundsWon <= s.roundsPlayed && s.roundsOpened <= s.roundsPlayed
    && s.startingStreak <= s.roundsWon && s.currentStreak <= s.roundsWon && s.longestStreak <= s.roundsWon
    && (s.roundsOpened == 0 <==> s.fastestOpeningTurn == 0)
  }

  /** Special wins are among the rounds won. */
  predicate SpecialsCovered(s: Statistics) {
    s.sameSuitWins <= s.roundsWon && s.sixPairsWins <= s.roundsWon
  }

  predicate CountersAccepted(s: Statistics) {
    PlainAccepted(s) && SpecialsCovered(s)
  }

  /** Every player's counters and total pass, and nobody played more rounds than the game. */
  predicate RecordAccepted(players: seq<Player>, round: int) {
    round > 0 && 2 <= |players| <= 4 &&
    forall i :: 0 <= i < |players| ==>
      CountersAccepted(players[i].statistics) && players[i].totalPoints >= 0 &&
      players[i].statistics.roundsPlayed <= round
  }

  // ---------------------------------------------------------------- what the engine keeps

  /** Rounds are won at most once each, and only rounds that were recorded; if asked for, special wins are
      among them. */
  predicate Consistent(p: Player, round: int, covered: bool) {
    var s := p.statistics;
    && PlainAccepted(s) && (covered ==> SpecialsCovered(s)) && p.totalPoints >= 0 && s.currentStreak <= s.longestStreak
    && 0 <= s.roundsWon <= s.lastRecordedRound <= s.roundsPlayed <= round
  }

  /** An active player of a running round has played it and has no result for it yet. */
  predicate Playing(p: Player, round: int) {
    var s := p.statistics;
    s.roundsPlayed == round && s.lastRecordedRound < round && (!p.hasOpened ==> s.roundsOpened < s.roundsPlayed)
  }

  predicate InStep(p: Player, s: State) {
    match s.phase
    case Lobby => s.round == 1 && p.statistics == NO_STATISTICS && !p.forfeited && p.totalPoints >= 0
    case InProgress => !p.forfeited ==> Playing(p, s.round)
    case RoundOver => !p.forfeited ==> p.statistics.roundsPlayed == s.round
    case GameOver => true
  }

  predicate CountersOk(s: State, covered: bool) {
    && (s.phase != Lobby ==> forall i :: 0 <= i < |s.players| ==> Consistent(s.players[i], s.round, covered))
    && (forall i :: 0 <= i < |s.players| ==> InStep(s.players[i], s))
    && (s.phase == GameOver && 0 <= s.roundWinnerIndex < |s.players| ==> !s.players[s.roundWinnerIndex].forfeited)
    && s.round >= 1 && (s.phase == Lobby ==> s.round == 1) && (s.phase != Lobby ==> |s.players| >= 2)
  }

  // ---------------------------------------------------------------- one player at a time

  /** A result may be recorded under a number `at` up to the rounds played; no later result is there yet. */
  lemma RecordedConsistent(p: Player, at: int, won: bool, round: int, covered: bool)
    requires Consistent(p, round, covered) && 1 <= at <= p.statistics.roundsPlayed &&
             p.statistics.lastRecordedRound <= at
    ensures Consistent(p.(statistics := Recorded(p.statistics, at, won)), round, covered)
    ensures won && p.statistics.lastRecordedRound < at ==>
              Recorded(p.statistics, at, won).roundsWon == p.statistics.roundsWon + 1
  {
  }

  lemma ScoredConsistent(p: Player, at: int, isWinner: bool, round: int, covered: bool)
    requires Consistent(p, round, covered) && 1 <= at && p.statistics.lastRecordedRound <= at
    ensures Consistent(Scored(p, at, isWinner), round, covered)
    ensures covered && isWinner && p.statistics.roundsPlayed >= at && p.statistics.lastRecordedRound < at ==>
              var s := Scored(p, at, isWinner).statistics; s.sameSuitWins < s.roundsWon && s.sixPairsWins < s.roundsWon
  {
    hide HandPoints;
    if p.statistics.roundsPlayed >= at {
      RecordedConsistent(p, at, isWinner, round, covered);
    }
  }

  lemma CreditedConsistent(p: Player, round: int, inflicted: nat, covered: bool)
    requires Consistent(p, round, covered)
    requires covered ==>
               p.statistics.sameSuitWins < p.statistics.roundsWon && p.statistics.sixPairsWins < p.statistics.roundsWon
    ensures Consistent(Credited(p, inflicted), round, covered)
  {
    hide OneSuit, SixPairs;
  }

  lemma ScoredPlayersConsistent(players: seq<Player>, at: int, winner: int, i: int, round: int, covered: bool)
    requires 0 <= winner < |players| && 0 <= i < |players| && at >= 1 && Consistent(players[i], round, covered)
    requires players[i].statistics.lastRecordedRound <= at
    requires covered && i == winner ==> Playing(players[i], at)
    ensures var q := ScoredPlayers(players, at, winner)[i];
            Consistent(q, round, covered) && q.forfeited == players[i].forfeited &&
            q.statistics.roundsPlayed == players[i].statistics.roundsPlayed
  {
    hide Consistent, HandPoints, OneSuit, SixPairs, Recorded;
    ScoredConsistent(players[i], at, i == winner, round, covered);
    ScoredPlayed(players[i], at, i == winner);
    if i == winner {
      CreditedConsistent(Scored(players[i], at, true), round, Inflicted(players, winner), covered);
    }
  }

  lemma ScoredPlayed(p: Player, round: int, isWinner: bool)
    ensures Scored(p, round, isWinner).statistics.roundsPlayed == p.statistics.roundsPlayed
    ensures Scored(p, round, isWinner).forfeited == p.forfeited
  {
    hide HandPoints;
  }

  /** A round finished under its own number, or under that of the round before, leaves every counter in order;
      special wins stay among the rounds won if the winner was playing the round. */
  lemma FinishKeepsCounters(s: State, winner: int, round: int, covered: bool)
    requires 0 <= winner < |s.players| && 1 <= s.round <= round && !s.players[winner].forfeited && |s.players| >= 2
    requires covered ==> Playing(s.players[winner], s.round)
    requires forall i :: 0 <= i < |s.players| ==>
               Consistent(s.players[i], round, covered) && s.players[i].statistics.lastRecordedRound <= s.round
    requires forall i :: 0 <= i < |s.players| && !s.players[i].forfeited ==>
               s.players[i].statistics.roundsPlayed == round
    ensures CountersOk(FinishRound(s, winner).(round := round), covered)
  {
    hide Consistent, Playing, ScoredPlayers, Adjusted, OthersOverLimit;
    var scored := ScoredPlayers(s.players, s.round, winner);
    forall i | 0 <= i < |s.players|
      ensures Consistent(scored[i], round, covered) && scored[i].forfeited == s.players[i].forfeited &&
              scored[i].statistics.roundsPlayed == s.players[i].statistics.roundsPlayed
    {
      ScoredPlayersConsistent(s.players, s.round, winner, i, round, covered);
    }
    AdjustedCounters(scored, round, covered);
  }

  lemma AdjustedCounters(players: seq<Player>, round: int, covered: bool)
    ensures forall i :: 0 <= i < |players| ==>
              var q := Adjusted(players)[i];
              q.statistics == players[i].statistics && q.forfeited == players[i].forfeited &&
              (players[i].totalPoints >= 0 ==> q.totalPoints >= 0) &&
              (Consistent(players[i], round, covered) ==> Consistent(q, round, covered))
  {
    hide HighestRemaining;
  }

  // ---------------------------------------------------------------- operation by operation

  /** Same counters, nobody back in the game, same round and phase. */
  predicate SameCounters(s: State, t: State) {
    && |t.players| == |s.players| && t.round == s.round && t.phase == s.phase
    && t.roundWinnerIndex == s.roundWinnerIndex
    && forall i :: 0 <= i < |s.players| ==>
         t.players[i].statistics == s.players[i].statistics && t.players[i].forfeited == s.players[i].forfeited &&
         t.players[i].hasOpened == s.players[i].hasOpened && t.players[i].totalPoints == s.players[i].totalPoints
  }

  lemma CountersCarry(s: State, t: State, covered: bool)
    requires CountersOk(s, covered) && SameCounters(s, t)
    ensures CountersOk(t, covered)
  {
    forall i | 0 <= i < |s.players|
      ensures Consistent(s.players[i], s.round, covered) <==> Consistent(t.players[i], t.round, covered)
      ensures InStep(s.players[i], s) <==> InStep(t.players[i], t)
    {
    }
  }

  lemma OpenedConsistent(p: Player, round: int, turn: int, covered: bool)
    requires Consistent(p, round, covered) && (!p.forfeited ==> Playing(p, round)) && !p.forfeited && turn >= 1
    ensures var q := p.(hasOpened := true, statistics := Opened(p, turn));
            Consistent(q, round, covered) && Playing(q, round)
  {
  }

  lemma AfterPlayCounters(s: State, next: TableState, covered: bool)
    requires CountersOk(s, covered) && s.phase == InProgress && HasCurrent(s) && s.turn.number >= 1 && next.hasOpened
    ensures CountersOk(AfterPlay(s, next), covered)
  {
    hide Consistent, Playing, Opened;
    var i := s.turn.playerIndex;
    var p := s.players[i];
    assert InStep(p, s);
    OpenedConsistent(p, s.round, s.turn.number, covered);
    SetHand(p, Opened(p, s.turn.number), AfterPlay(s, next).players[i], s.round, covered);
  }

  lemma PlayCounters(s: State, comps: seq<Comp>, additions: seq<Addition>, reclaims: seq<JokerReclaim>, covered: bool)
    requires CountersOk(s, covered) && Inv(s) && AllOk(comps)
    ensures CountersOk(PlayTable(s, comps, additions, reclaims).state, covered)
  {
    hide ApplyTablePlay, UsesCard, CountersOk, InPhase, AllCards, AllOk, TableCards, PenaltySum, InflictedSum,
         AfterPlay;
    SeatedBasics(s);
    var r := PlayTable(s, comps, additions, reclaims);
    if r.error.None? {
      var p := s.players[s.turn.playerIndex];
      var play := TableState(p.hand, s.table, p.hasOpened);
      PlayConservesCards(play, comps, additions, reclaims);
      AfterPlayCounters(s, ApplyTablePlay(play, comps, additions, reclaims).value, covered);
    }
  }

  lemma SetHand(p: Player, statistics: Statistics, q: Player, round: int, covered: bool)
    requires q == p.(hand := q.hand, hasOpened := true, statistics := statistics)
    ensures Consistent(p.(hasOpened := true, statistics := statistics), round, covered) ==>
              Consistent(q, round, covered)
    ensures Playing(p.(hasOpened := true, statistics := statistics), round) ==> Playing(q, round)
  {
  }

  lemma DiscardCounters(s: State, index: int, expected: Option<Card>, covered: bool)
    requires CountersOk(s, covered) && Inv(s)
    ensures CountersOk(Discard(s, index, expected).state, covered)
  {
    hide Inv, Consistent, Playing, MatchIndex, RemoveCompleted, WinsRound, FinishRound, AdvanceTurn, WithoutAt;
    var r := Discard(s, index, expected);
    if r.error.None? {
      var i := s.turn.playerIndex;
      var k := MatchIndex(s.players[i].hand, index, expected);
      var d := Discarded(s, i, k);
      CountersCarry(s, d, covered);
      if WinsRound(d.players[i].hand) {
        ActivePlayed(d, covered);
        ResultsBefore(d, covered);
        FinishKeepsCounters(d, i, d.round, covered);
        FinishLength(d, i);
        assert FinishRound(d, i).(round := d.round) == FinishRound(d, i);
      } else {
        AdvancedFields(d);
        CountersCarry(d, AdvanceTurn(d), covered);
      }
    }
  }

  lemma ResultsBefore(s: State, covered: bool)
    requires CountersOk(s, covered) && s.phase != Lobby
    ensures forall i :: 0 <= i < |s.players| ==>
              Consistent(s.players[i], s.round, covered) && s.players[i].statistics.lastRecordedRound <= s.round
  {
    forall i | 0 <= i < |s.players|
      ensures s.players[i].statistics.lastRecordedRound <= s.round
    {
      assert Consistent(s.players[i], s.round, covered);
    }
  }

  /** Active players of a running round have played exactly its number of rounds. */
  lemma ActivePlayed(s: State, covered: bool)
    requires CountersOk(s, covered) && s.phase == InProgress
    ensures forall i :: 0 <= i < |s.players| && !s.players[i].forfeited ==>
              Playing(s.players[i], s.round) && s.players[i].statistics.roundsPlayed == s.round
  {
    hide Consistent;
    forall i | 0 <= i < |s.players| && !s.players[i].forfeited
      ensures Playing(s.players[i], s.round) && s.players[i].statistics.roundsPlayed == s.round
    {
      assert InStep(s.players[i], s);
    }
  }

  lemma AdvancedFields(s: State)
    requires 0 <= s.turn.playerIndex < |s.players|
    ensures var t := AdvanceTurn(s);
            t.players == s.players && t.round == s.round && t.phase == s.phase &&
            t.roundWinnerIndex == s.roundWinnerIndex
  {
    hide NextOf;
  }

  // ---------------------------------------------------------------- deals

  /** Before the first deal of a game, or between two rounds. */
  lemma DealtCounters(s: State, t: State, round: int, covered: bool)
    requires CountersOk(s, covered) && (s.phase == Lobby || s.phase == RoundOver) && |t.players| == |s.players|
    requires round == (if s.phase == Lobby then s.round else s.round + 1)
    requires forall i :: 0 <= i < |s.players| ==>
               t.players[i].forfeited == s.players[i].forfeited && !t.players[i].hasOpened &&
               t.players[i].totalPoints == s.players[i].totalPoints &&
               t.players[i].statistics ==
                 (if s.players[i].forfeited then s.players[i].statistics
                  else s.players[i].statistics.(roundsPlayed := s.players[i].statistics.roundsPlayed + 1))
    ensures forall i :: 0 <= i < |s.players| ==>
              Consistent(t.players[i], round, covered) && (!t.players[i].forfeited ==> Playing(t.players[i], round)) &&
              t.players[i].statistics.lastRecordedRound <= s.round
  {
    forall i | 0 <= i < |s.players|
      ensures Consistent(t.players[i], round, covered) && (!t.players[i].forfeited ==> Playing(t.players[i], round)) &&
              t.players[i].statistics.lastRecordedRound <= s.round
    {
      assert s.phase != Lobby ==> Consistent(s.players[i], s.round, covered);
      assert InStep(s.players[i], s);
    }
  }

  /** The players just after a deal, before anyone may have won. */
  lemma DealtPeople(s: State, deck: seq<Card>, d: D.Dealt)
    requires var r := Reset(s, deck);
             |d.players| == |s.players| && forall i :: 0 <= i < |s.players| ==>
               d.players[i] == r.players[i].(hand := d.players[i].hand)
    ensures var players := CountRound(d.players);
            forall i :: 0 <= i < |s.players| ==>
              players[i].forfeited == s.players[i].forfeited && !players[i].hasOpened &&
              players[i].totalPoints == s.players[i].totalPoints &&
              players[i].statistics ==
                (if s.players[i].forfeited then s.players[i].statistics
                 else s.players[i].statistics.(roundsPlayed := s.players[i].statistics.roundsPlayed + 1))
  {
  }

  /** A round that starts: running, or at once won by a dealt hand. A round won that way after the first may
      leave special wins uncovered. */
  lemma BeganCounters(u: State, dealer: int, d: D.Dealt, round: int, covered: bool)
    requires |d.players| == |u.players| >= 2 && |d.pile| > 0 && 0 <= dealer < |u.players| && 1 <= u.round <= round
    requires var players := CountRound(d.players);
             forall i :: 0 <= i < |players| ==>
               Consistent(players[i], round, covered) && (!players[i].forfeited ==> Playing(players[i], round)) &&
               players[i].statistics.lastRecordedRound <= u.round
    requires covered && u.round < round ==> Dealt(u, dealer, d).phase == InProgress
    ensures CountersOk(Dealt(u, dealer, d).(round := round), covered)
  {
    hide Consistent, Playing, CountRound, FirstSpecial, NextOf, FinishRound, ActiveFlags;
    var players := CountRound(d.players);
    var special := FirstSpecial(players);
    if special < |players| {
      var r := u.(players := players, dealerIndex := dealer, drawPile := d.pile[1..],
                  discardPile := [d.pile[0]] + u.discardPile);
      FinishedPhase(r, special);
      PlayingMeans(players, round);
      FinishKeepsCounters(r, special, round, covered);
    }
  }

  lemma PlayingMeans(players: seq<Player>, round: int)
    requires forall i :: 0 <= i < |players| ==> (!players[i].forfeited ==> Playing(players[i], round))
    ensures forall i :: 0 <= i < |players| && !players[i].forfeited ==> players[i].statistics.roundsPlayed == round
  {
    forall i | 0 <= i < |players| && !players[i].forfeited
      ensures players[i].statistics.roundsPlayed == round
    {
      assert Playing(players[i], round);
    }
  }

  lemma FinishedPhase(s: State, winner: int)
    requires 0 <= winner < |s.players|
    ensures FinishRound(s, winner).phase == RoundOver || FinishRound(s, winner).phase == GameOver
  {
    hide ScoredPlayers, Adjusted, OthersOverLimit;
  }

  lemma StartedCounters(s: State, deck: seq<Card>, mode: Mode, dealer: int, chooser: int, dt: D.DealType,
                        order: Option<seq<int>>, cut: int, round: int, covered: bool)
    requires CountersOk(s, covered) && (s.phase == Lobby || s.phase == RoundOver) &&
             round == if s.phase == Lobby then s.round else s.round + 1
    requires var r := StartRound(Reset(s, deck).(mode := mode), dealer, chooser, dt, order, cut);
             r.error.None? && (covered && s.phase == RoundOver ==> r.state.phase == InProgress)
    ensures var t := StartRound(Reset(s, deck).(mode := mode), dealer, chooser, dt, order, cut).state;
            CountersOk(t.(round := round), covered)
  {
    hide Consistent, Playing, Dealt, PreviousOf, ActiveFlags, D.InitialDeal, D.ActiveIndexes;
    var u := Reset(s, deck).(mode := mode);
    D.DealConserves(u.players, u.drawPile, dt, order, dealer, cut);
    var d := D.InitialDeal(u.players, u.drawPile, dt, order, dealer, cut).value;
    ActiveAtMost(u.players);
    DealtPeople(s, deck, d);
    DealtCounters(s, u.(players := CountRound(d.players)), round, covered);
    BeganCounters(u, dealer, d, round, covered);
  }

  // ---------------------------------------------------------------- forfeits

  lemma OutConsistent(p: Player, round: int, order: int, covered: bool)
    requires Consistent(p, round, covered)
    ensures Consistent(Out(p, order), round, covered)
  {
  }

  lemma WithoutCounters(s: State, i: int, shuffled: seq<Card>, covered: bool)
    requires CountersOk(s, covered) && (s.phase == InProgress || s.phase == RoundOver) && 0 <= i < |s.players|
    ensures CountersOk(Without(s, i, shuffled), covered)
  {
    hide Consistent, Playing, NextForfeitOrder;
    var t := Without(s, i, shuffled);
    WithoutFields(s, i, shuffled);
    OutConsistent(s.players[i], s.round, NextForfeitOrder(s.players, i), covered);
    forall j | 0 <= j < |s.players|
      ensures InStep(t.players[j], t)
    {
      if j != i {
        assert InStep(s.players[j], s);
      }
    }
  }

  lemma LastCounters(s: State, winner: int, covered: bool)
    requires CountersOk(s, covered) && (s.phase == InProgress || s.phase == RoundOver) && 0 <= winner < |s.players| &&
             !s.players[winner].forfeited
    ensures CountersOk(s.(players := RecordedAll(s.players, s.round, winner), roundWinnerIndex := winner,
                          phase := GameOver,
                          turn := Cleared(s.turn).(hasDrawn := false)), covered)
  {
    hide Consistent, Recorded;
    forall i | 0 <= i < |s.players|
      ensures Consistent(RecordedAll(s.players, s.round, winner)[i], s.round, covered)
    {
      ResultsBefore(s, covered);
      if s.players[i].statistics.roundsPlayed >= s.round {
        RecordedConsistent(s.players[i], s.round, i == winner, s.round, covered);
      }
    }
  }

  lemma ForfeitCounters(s: State, id: string, shuffled: seq<Card>, covered: bool)
    requires CountersOk(s, covered) && 0 <= s.turn.playerIndex && (|s.players| > 0 ==> s.turn.playerIndex < |s.players|)
    ensures CountersOk(Forfeit(s, id, shuffled).state, covered)
  {
    hide CountersOk, AdvanceTurn, RecordedAll, NextForfeitOrder;
    var r := Forfeit(s, id, shuffled);
    if r.error.None? {
      var i := SeatOf(s.players, id);
      var t := Without(s, i, shuffled);
      WithoutCounters(s, i, shuffled, covered);
      WithoutFields(s, i, shuffled);
      var active := D.ActiveIndexes(t.players);
      if |active| == 1 {
        LastCounters(t, active[0], covered);
      } else if s.phase == InProgress && s.turn.playerIndex == i {
        AdvancedFields(t);
        CountersCarry(t, AdvanceTurn(t), covered);
      }
    }
  }

  // ---------------------------------------------------------------- runs

  /** Operations that fail are rolled back. */
  ghost predicate RolledBackStep(s: State, op: Op, t: State)
    requires WellFormed(s)
  {
    Possible(s, op) && var r := After(s, op); t == if r.error.Some? then s else r.state
  }

  /** The operation deals a round after the first, and the deal itself decides it. */
  ghost predicate LaterDealtWin(s: State, op: Op)
    requires WellFormed(s) && Possible(s, op)
  {
    op.NextRound? && After(s, op).error.None? && After(s, op).state.phase != InProgress
  }

  lemma JoinCounters(s: State, id: string, covered: bool)
    requires CountersOk(s, covered)
    ensures CountersOk(AddPlayer(s, NewPlayer(id)).state, covered)
  {
    hide Consistent, Playing;
    var t := AddPlayer(s, NewPlayer(id)).state;
    if AddPlayer(s, NewPlayer(id)).error.Some? {
      return;
    }
    forall i | 0 <= i < |t.players|
      ensures InStep(t.players[i], t)
    {
      if i < |s.players| {
        assert InStep(s.players[i], s);
      }
    }
  }

  lemma StartCounters(s: State, op: Op, covered: bool)
    requires CountersOk(s, covered) && op.Start?
    ensures var r := StartGame(s, op.dealer, op.chooser, op.dt, op.order, op.cut, op.mode);
            r.error.None? ==> CountersOk(r.state, covered)
  {
    hide CountersOk, StartRound, Reset;
    if s.phase == Lobby && op.mode != UnknownMode &&
       StartRound(Reset(s, s.drawPile).(mode := op.mode), op.dealer, op.chooser, op.dt, op.order, op.cut).error.None? {
      StartedCounters(s, s.drawPile, op.mode, op.dealer, op.chooser, op.dt, op.order, op.cut, s.round, covered);
      KeepsMode(s, s.drawPile);
      StartKeepsRound(Reset(s, s.drawPile).(mode := op.mode), op.dealer, op.chooser, op.dt, op.order, op.cut);
    }
  }

  lemma NextRoundCounters(s: State, op: Op, covered: bool)
    requires CountersOk(s, covered) && WellFormed(s) && op.NextRound?
    ensures var r := StartNextRound(s, op.dt, op.order, op.cut, op.deck);
            r.error.None? && (covered ==> r.state.phase == InProgress) ==> CountersOk(r.state, covered)
  {
    hide CountersOk, StartRound, Reset, NextOf, PreviousOf, ActiveFlags, AllOk;
    var r := StartNextRound(s, op.dt, op.order, op.cut, op.deck);
    if r.error.None? && (covered ==> r.state.phase == InProgress) {
      var flags := ActiveFlags(s.players);
      var dealer := NextOf(flags, s.dealerIndex);
      KeepsMode(s, op.deck);
      StartedCounters(s, op.deck, s.mode, dealer, PreviousOf(flags, dealer), op.dt, op.order, op.cut, s.round + 1,
                      covered);
      StartKeepsRound(Reset(s, op.deck), dealer, PreviousOf(flags, dealer), op.dt, op.order, op.cut);
    }
  }

  lemma KeepsMode(s: State, deck: seq<Card>)
    ensures Reset(s, deck).(mode := s.mode) == Reset(s, deck) && Reset(s, deck).round == s.round
  {
  }

  lemma StartKeepsRound(s: State, dealer: int, chooser: int, dt: D.DealType, order: Option<seq<int>>, cut: int)
    ensures StartRound(s, dealer, chooser, dt, order, cut).state.round == s.round
  {
    hide D.InitialDeal, ScoredPlayers, Adjusted, OthersOverLimit, FirstSpecial, NextOf, PreviousOf, CountRound;
  }

  lemma PlayThenDiscardCounters(s: State, op: Op, covered: bool)
    requires CountersOk(s, covered) && Inv(s) && op.PlayAndDiscard? && AllOk(op.comps)
    ensures WellFormed(s) &&
            CountersOk(PlayThenDiscard(s, op.comps, op.additions, op.reclaims, op.index, op.expected).state, covered)
  {
    hide CountersOk, Inv, PlayTable, Discard, AllOk, RemadeAll;
    SeatedInv(s);
    RestoredKeeps(s);
    CountersCarry(s, Restored(s), covered);
    PlayCounters(Restored(s), op.comps, op.additions, op.reclaims, covered);
    PlayTableKeeps(Restored(s), op.comps, op.additions, op.reclaims);
    var p := PlayTable(Restored(s), op.comps, op.additions, op.reclaims);
    DiscardCounters(p.state, op.index, op.expected, covered);
  }

  lemma DrawCounters(s: State, accepted: bool, covered: bool)
    requires CountersOk(s, covered) && (accepted ==> s.discardPile != [])
    ensures CountersOk(DrawFromDeck(s).state, covered) && CountersOk(DrawFromDiscard(s, accepted).state, covered)
  {
    hide CountersOk;
    CountersCarry(s, DrawFromDeck(s).state, covered);
    CountersCarry(s, DrawFromDiscard(s, accepted).state, covered);
  }

  lemma EndCounters(s: State, covered: bool)
    requires CountersOk(s, covered)
    ensures CountersOk(EndWithoutWinner(s).state, covered)
  {
    hide Consistent, Playing;
  }

  lemma StepKeepsCounters(s: State, op: Op, t: State, covered: bool)
    requires Inv(s) && CountersOk(s, covered) && WellFormed(s) && RolledBackStep(s, op, t)
    requires covered ==> !LaterDealtWin(s, op)
    ensures CountersOk(t, covered)
  {
    hide Inv, CountersOk, WellFormed, AddPlayer, StartGame, StartNextRound, DrawFromDeck, DrawFromDiscard, PlayTable,
         Discard,
         PlayThenDiscard, Forfeit, EndWithoutWinner, AllOk, CanUse, RemadeAll;
    var r := After(s, op);
    if r.error.None? {
      match op
      case Join(id) => JoinCounters(s, id, covered);
      case Start(_, _, _, _, _, _) => StartCounters(s, op, covered);
      case NextRound(_, _, _, _) => NextRoundCounters(s, op, covered);
      case Draw => DrawCounters(s, false, covered);
      case TakeDiscard(accepted) => DrawCounters(s, accepted, covered);
      case Play(comps, additions, reclaims) => PlayCounters(s, comps, additions, reclaims, covered);
      case DiscardCard(index, expected) => DiscardCounters(s, index, expected, covered);
      case PlayAndDiscard(_, _, _, _, _) => PlayThenDiscardCounters(s, op, covered);
      case Leave(id, shuffled) => LeaveCounters(s, op, covered);
      case End => EndCounters(s, covered);
      case Restart => RestartCounters(s, covered);
    }
  }

  lemma LeaveCounters(s: State, op: Op, covered: bool)
    requires CountersOk(s, covered) && WellFormed(s) && op.Leave?
    ensures CountersOk(Forfeit(s, op.id, op.shuffled).state, covered)
  {
    hide CountersOk, Forfeit, AllOk;
    ForfeitCounters(s, op.id, op.shuffled, covered);
  }

  lemma RestartCounters(s: State, covered: bool)
    requires CountersOk(s, covered) && WellFormed(s)
    ensures CountersOk(Restored(s), covered)
  {
    hide CountersOk, RemadeAll, AllOk;
    CountersCarry(s, Restored(s), covered);
  }

  /** A run of commands as the lobby makes them: a failed one leaves no trace. */
  ghost predicate RolledBackRun(states: seq<State>, ops: seq<Op>) {
    && |states| == |ops| + 1
    && (exists deck :: multiset(deck) == DoubleDeck() && states[0] == NewGame(deck))
    && forall i :: 0 <= i < |ops| && WellFormed(states[i]) ==> RolledBackStep(states[i], ops[i], states[i + 1])
  }

  /** In every rolled-back run every counter stays in order, but perhaps the special wins. */
  lemma {:induction false} RunsKeepCounters(states: seq<State>, ops: seq<Op>, i: nat)
    requires RolledBackRun(states, ops) && i < |states|
    ensures Inv(states[i]) && CountersOk(states[i], false)
  {
    hide Inv, CountersOk, Possible, After, NewGame, DoubleDeck;
    if i == 0 {
      var deck :| multiset(deck) == DoubleDeck() && states[0] == NewGame(deck);
      NewGameHolds(deck);
      NewCounters(deck, false);
    } else {
      RunsKeepCounters(states, ops, i - 1);
      SeatedInv(states[i - 1]);
      assert RolledBackStep(states[i - 1], ops[i - 1], states[i]);
      StepKeeps(states[i - 1], ops[i - 1]);
      StepKeepsCounters(states[i - 1], ops[i - 1], states[i], false);
    }
  }

  lemma NewCounters(deck: seq<Card>, covered: bool)
    ensures CountersOk(NewGame(deck), covered)
  {
  }

  /** Every player's special wins are among the rounds won. */
  predicate AllCovered(players: seq<Player>) {
    forall i :: 0 <= i < |players| ==> SpecialsCovered(players[i].statistics)
  }

  lemma AcceptedIffCovered(s: State)
    requires CountersOk(s, false) && |s.players| <= 4 && s.phase != Lobby
    ensures RecordAccepted(s.players, s.round) <==> AllCovered(s.players)
  {
    hide PlainAccepted, SpecialsCovered;
    forall i | 0 <= i < |s.players|
      ensures PlainAccepted(s.players[i].statistics) && s.players[i].totalPoints >= 0 &&
              s.players[i].statistics.roundsPlayed <= s.round
    {
      assert Consistent(s.players[i], s.round, false);
    }
  }

  /** In every rolled-back run, once a round has started, the store accepts the engine's record exactly when
      nobody has more special wins of a kind than rounds won. */
  lemma RecordsAcceptedIff(states: seq<State>, ops: seq<Op>, i: nat)
    requires RolledBackRun(states, ops) && i < |states| && states[i].phase != Lobby
    ensures RecordAccepted(states[i].players, states[i].round) <==> AllCovered(states[i].players)
  {
    hide RolledBackRun, CountersOk, RecordAccepted, InPhase, Conserved, AllCovered;
    RunsKeepCounters(states, ops, i);
    AcceptedIffCovered(states[i]);
  }

  lemma CoveredCounters(s: State)
    requires CountersOk(s, false) && AllCovered(s.players)
    ensures CountersOk(s, true)
  {
    forall i | 0 <= i < |s.players| && s.phase != Lobby
      ensures Consistent(s.players[i], s.round, true)
    {
      assert Consistent(s.players[i], s.round, false);
    }
  }

  lemma CountersCovered(s: State)
    requires CountersOk(s, true)
    ensures AllCovered(s.players)
  {
    forall i | 0 <= i < |s.players|
      ensures SpecialsCovered(s.players[i].statistics)
    {
      assert InStep(s.players[i], s);
      assert s.phase != Lobby ==> Consistent(s.players[i], s.round, true);
    }
  }

  /** Only a round after the first that its own deal decides can cost a record the store's acceptance. */
  lemma OnlyDealtWinsUncover(states: seq<State>, ops: seq<Op>, i: nat)
    requires RolledBackRun(states, ops) && i < |ops| && AllCovered(states[i].players)
    ensures WellFormed(states[i]) && Possible(states[i], ops[i])
    ensures LaterDealtWin(states[i], ops[i]) || AllCovered(states[i + 1].players)
  {
    hide Inv, CountersOk, Possible, After, AllCovered, LaterDealtWin;
    RunsKeepCounters(states, ops, i);
    SeatedInv(states[i]);
    assert RolledBackStep(states[i], ops[i], states[i + 1]);
    if !LaterDealtWin(states[i], ops[i]) {
      CoveredCounters(states[i]);
      StepKeepsCounters(states[i], ops[i], states[i + 1], true);
      CountersCovered(states[i + 1]);
    }
  }

  /** No round after the first is decided by its deal. */
  ghost predicate NoLaterDealtWins(states: seq<State>, ops: seq<Op>, i: nat)
    requires i <= |ops| && i <= |states|
  {
    forall k :: 0 <= k < i && WellFormed(states[k]) && Possible(states[k], ops[k]) ==> !LaterDealtWin(states[k], ops[k])
  }

  /** Up to the first such round the store accepts every record. */
  lemma {:induction false} RecordsAreAccepted(states: seq<State>, ops: seq<Op>, i: nat)
    requires RolledBackRun(states, ops) && i < |states| && NoLaterDealtWins(states, ops, i)
    ensures AllCovered(states[i].players)
    ensures states[i].phase != Lobby ==> RecordAccepted(states[i].players, states[i].round)
  {
    hide CountersOk, RecordAccepted, AllCovered, LaterDealtWin, Possible, After, NewGame, DoubleDeck;
    if i == 0 {
      var deck :| multiset(deck) == DoubleDeck() && states[0] == NewGame(deck);
      NewCounters(deck, true);
      CountersCovered(states[0]);
    } else {
      RecordsAreAccepted(states, ops, i - 1);
      OnlyDealtWinsUncover(states, ops, i - 1);
    }
    if states[i].phase != Lobby {
      RecordsAcceptedIff(states, ops, i);
    }
  }

  /** The checks of SaveCompletedGame on placements: in range, first place exactly for the winner, who did
      not forfeit. */
  predicate PlacementsAccepted(players: seq<Player>, winner: int, p: map<int, nat>) {
    forall i :: 0 <= i < |players| ==>
      i in p && 1 <= p[i] <= |players| && (i == winner <==> p[i] == 1) && (i == winner ==> !players[i].forfeited)
  }

  /** A game that ends with a winner passes the checks on placements, whatever placements
      CompletedPlayerStatistics computes. */
  lemma CompletedGamesAreAccepted(states: seq<State>, ops: seq<Op>, i: nat, p: map<int, nat>)
    requires RolledBackRun(states, ops) && i < |states| && states[i].phase == GameOver &&
             states[i].roundWinnerIndex >= 0
    requires Placements.Placed(states[i].players, states[i].roundWinnerIndex, p)
    ensures PlacementsAccepted(states[i].players, states[i].roundWinnerIndex, p)
  {
    hide RolledBackRun, InPhase, Conserved, Consistent, InStep;
    RunsKeepCounters(states, ops, i);
  }

  // ---------------------------------------------------------------- a round won straight from the deal

  /** `u` is the state just after the deal of the next round, still under the number of the last one. */
  ghost predicate NextDealt(s: State, u: State) {
    && |u.players| == |s.players| && u.round == s.round
    && forall i :: 0 <= i < |s.players| ==>
         u.players[i].forfeited == s.players[i].forfeited && u.players[i].totalPoints == s.players[i].totalPoints &&
         u.players[i].statistics ==
           (if s.players[i].forfeited then s.players[i].statistics
            else s.players[i].statistics.(roundsPlayed := s.players[i].statistics.roundsPlayed + 1))
  }

  /** Whether the winner's special wins will be among the rounds won: the win itself is counted only if the
      round before has no result, and then under its number. */
  ghost predicate WinnerCovered(s: Statistics, hand: seq<Card>, round: int) {
    var won := s.roundsWon + if s.lastRecordedRound == round then 0 else 1;
    s.sameSuitWins + (if OneSuit(hand) then 1 else 0) <= won && s.sixPairsWins + (if OneSuit(hand) then 0 else 1) <= won
  }

  lemma ScoredWinner(p: Player, round: int, inflicted: int)
    requires p.statistics.roundsPlayed >= round && (OneSuit(p.hand) || SixPairs(p.hand))
    ensures SpecialsCovered(Credited(Scored(p, round, true), inflicted).statistics) <==>
              WinnerCovered(p.statistics, p.hand, round)
  {
    hide HandPoints, OneSuit, SixPairs;
  }

  lemma ScoredLoser(p: Player, round: int)
    ensures SpecialsCovered(Scored(p, round, false).statistics) <==> SpecialsCovered(p.statistics)
  {
    hide HandPoints;
  }

  lemma DealtWinCoveredIff(s: State, u: State, winner: int)
    requires CountersOk(s, false) && s.phase == RoundOver && NextDealt(s, u)
    requires 0 <= winner < |s.players| && !u.players[winner].forfeited
    requires OneSuit(u.players[winner].hand) || SixPairs(u.players[winner].hand)
    ensures AllCovered(FinishRound(u, winner).players) <==>
              (forall i :: 0 <= i < |s.players| && i != winner ==> SpecialsCovered(s.players[i].statistics)) &&
              WinnerCovered(s.players[winner].statistics, u.players[winner].hand, s.round)
  {
    hide CountersOk, Consistent, HandPoints, OneSuit, SixPairs, Scored, Credited, Adjusted, OthersOverLimit,
         SpecialsCovered,
         WinnerCovered;
    var scored := ScoredPlayers(u.players, u.round, winner);
    AdjustedCounters(scored, u.round, false);
    FinishLength(u, winner);
    FinishedStatistics(u, winner);
    forall i | 0 <= i < |s.players| && i != winner
      ensures SpecialsCovered(scored[i].statistics) <==> SpecialsCovered(s.players[i].statistics)
    {
      ScoredLoser(u.players[i], u.round);
      SameSpecials(s, u, i);
    }
    WinnerPlayed(s, u, winner);
    ScoredWinner(u.players[winner], u.round, Inflicted(u.players, winner));
    SameWinner(s, u, winner);
    assert scored[winner] == Credited(Scored(u.players[winner], u.round, true), Inflicted(u.players, winner));
  }

  lemma FinishedStatistics(u: State, winner: int)
    requires 0 <= winner < |u.players|
    ensures var after, scored := FinishRound(u, winner).players, ScoredPlayers(u.players, u.round, winner);
            |after| == |scored| && forall i :: 0 <= i < |scored| ==> after[i].statistics == scored[i].statistics
  {
    hide ScoredPlayers, HighestRemaining, OthersOverLimit;
  }

  lemma SameLength(s: State, u: State)
    requires NextDealt(s, u)
    ensures |u.players| == |s.players| && u.round == s.round
  {
  }

  lemma SameSpecials(s: State, u: State, i: int)
    requires NextDealt(s, u) && 0 <= i < |s.players|
    ensures SpecialsCovered(u.players[i].statistics) <==> SpecialsCovered(s.players[i].statistics)
  {
  }

  lemma SameWinner(s: State, u: State, i: int)
    requires NextDealt(s, u) && 0 <= i < |s.players|
    ensures WinnerCovered(u.players[i].statistics, u.players[i].hand, u.round) <==>
            WinnerCovered(s.players[i].statistics, u.players[i].hand, s.round)
  {
    hide OneSuit;
  }

  lemma WinnerPlayed(s: State, u: State, winner: int)
    requires CountersOk(s, false) && s.phase == RoundOver && NextDealt(s, u) && 0 <= winner < |s.players|
    requires !u.players[winner].forfeited
    ensures u.players[winner].statistics.roundsPlayed >= u.round
  {
    assert InStep(s.players[winner], s);
  }

  lemma BeganWon(s: State, deck: seq<Card>, dealer: int, d: D.Dealt)
    requires var r := Reset(s, deck);
             |d.players| == |s.players| && |d.pile| > 0 && 0 <= dealer < |s.players| &&
             forall i :: 0 <= i < |s.players| ==> d.players[i] == r.players[i].(hand := d.players[i].hand)
    requires Dealt(Reset(s, deck), dealer, d).phase != InProgress
    ensures var u, w := JustDealt(Reset(s, deck), dealer, d), FirstSpecial(CountRound(d.players));
            && w < |s.players| && NextDealt(s, u) && !u.players[w].forfeited
            && (OneSuit(u.players[w].hand) || SixPairs(u.players[w].hand))
            && Dealt(Reset(s, deck), dealer, d) == FinishRound(u, w)
  {
    hide OneSuit, SixPairs, FinishRound, NextOf, ActiveFlags;
    DealtPeople(s, deck, d);
  }

  lemma WonByWinner(u: State, w: int)
    requires 0 <= w < |u.players|
    ensures FinishRound(u, w).roundWinnerIndex == w && FinishRound(u, w).players[w].hand == u.players[w].hand
  {
    hide Recorded, HandPoints, Inflicted, OneSuit, SixPairs, HighestRemaining, OthersOverLimit;
  }

  /** Whenever the next round is won straight from its deal, the store accepts the game's record exactly when
      the other players' special wins were covered before and the winner's, one more now, still are. */
  lemma NextRoundWonFromDeal(s: State, op: Op)
    requires CountersOk(s, false) && WellFormed(s) && op.NextRound?
    requires var r := StartNextRound(s, op.dt, op.order, op.cut, op.deck); r.error.None? && r.state.phase != InProgress
    ensures var t := StartNextRound(s, op.dt, op.order, op.cut, op.deck).state;
            var w := t.roundWinnerIndex;
            0 <= w < |s.players| && |t.players| == |s.players| &&
            (RecordAccepted(t.players, t.round) <==>
               (forall i :: 0 <= i < |s.players| && i != w ==> SpecialsCovered(s.players[i].statistics)) &&
               WinnerCovered(s.players[w].statistics, t.players[w].hand, s.round))
  {
    hide CountersOk, RecordAccepted, SpecialsCovered, WinnerCovered, AllCovered, Dealt, NextOf, PreviousOf,
         ActiveFlags, AllOk,
         D.InitialDeal, D.ActiveIndexes, DistinctIds, FinishRound, OneSuit, SixPairs, NextDealt, JustDealt, CountRound,
         Reset;
    NextRoundCounters(s, op, false);
    var u := Reset(s, op.deck);
    KeepsMode(s, op.deck);
    ResetPlayers(s, op.deck);
    var flags := ActiveFlags(s.players);
    var dealer := NextOf(flags, s.dealerIndex);
    D.DealConserves(u.players, u.drawPile, op.dt, op.order, dealer, op.cut);
    var d := D.InitialDeal(u.players, u.drawPile, op.dt, op.order, dealer, op.cut).value;
    BeganWon(s, op.deck, dealer, d);
    var v, w := JustDealt(u, dealer, d), FirstSpecial(CountRound(d.players));
    SameLength(s, v);
    WonByWinner(v, w);
    FinishLength(v, w);
    FinishedPhase(v, w);
    DealtWinCoveredIff(s, v, w);
    AcceptedIffCovered(StartNextRound(s, op.dt, op.order, op.cut, op.deck).state);
  }

  lemma FinishLength(s: State, w: int)
    requires 0 <= w < |s.players|
    ensures |FinishRound(s, w).players| == |s.players| && FinishRound(s, w).round == s.round
  {
    hide ScoredPlayers, HighestRemaining, OthersOverLimit;
  }
}
