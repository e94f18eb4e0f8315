/** A game whose record the store refuses. The double deck happens to lie in its printed order both times, the
    first player is dealt twelve hearts both times, and so wins both rounds straight from the deal. The second
    win is counted under the number of the round before (state.go:393, 594), where a result already stands. */
module DealtWins {
  import opened Cards
  import opened Piles
  import opened Rotation
  import opened SpecialHands
  import opened RoundScoring
  import opened GameModel
  import opened GameInvariants
  import opened GameRounds
  import opened GameRuns
  import opened PlayerRecords
  import opened RoundStarts
  import D = Dealing

  const ORDER: seq<int> := [0, 1]

  function Printed(): (r: seq<Card>)
    ensures |r| == 108
  {
    DeckCards() + DeckCards()
  }

  // ---------------------------------------------------------------- the deal

  /** Two players still in the game. */
  predicate TwoPlayers(players: seq<Player>) {
    |players| == 2 && !players[0].forfeited && !players[1].forfeited
  }

  lemma BothActive(players: seq<Player>)
    requires TwoPlayers(players)
    ensures D.ActiveIndexes(players) == [0, 1]
  {
    assert players[..1][..0] == [];
    assert D.ActiveIndexes(players[..1]) == [0];
  }

  lemma TwoBlocks()
    ensures D.Blocks(ORDER) == D.Block(0, INITIAL_HAND_SIZE) + D.Block(1, INITIAL_HAND_SIZE)
  {
    assert ORDER[..1] == [0] && [0][..0] == [];
    assert D.Blocks([0]) == D.Blocks([]) + D.Block(0, INITIAL_HAND_SIZE);
  }

  /** The first twelve cards go to the first player, the next twelve to the second. */
  lemma PrintedDeal(players: seq<Player>, dealer: int)
    requires TwoPlayers(players) && EmptyHands(players)
    ensures var r := D.InitialDeal(players, Printed(), D.InBlocks, Some(ORDER), dealer, 0);
            && r.Success? && |r.value.players| == 2 && |r.value.pile| == 84
            && r.value.players[0].hand == Printed()[..12] && r.value.players[1].hand == Printed()[12..24]
  {
    hide Printed, D.Deal, D.Blocks, D.Block, D.ActiveIndexes;
    BothActive(players);
    TwoBlocks();
    assert Printed()[0..] == Printed();
    var block := D.Block(0, INITIAL_HAND_SIZE);
    forall i | 0 <= i < 2
      ensures D.Seats([] + block + D.Block(1, INITIAL_HAND_SIZE), 2)
      ensures D.Deal(players, [] + block + D.Block(1, INITIAL_HAND_SIZE), Printed())[i].hand ==
              if i == 0 then Printed()[..12] else Printed()[12..24]
    {
      BlockDealt(players, [], 0, INITIAL_HAND_SIZE, Printed(), i);
      BlockDealt(players, [] + block, 1, INITIAL_HAND_SIZE, Printed(), i);
      NothingYet(players, i);
    }
    assert [] + block == block;
    D.DealConserves(players, Printed(), D.InBlocks, Some(ORDER), dealer, 0);
  }

  lemma NothingYet(players: seq<Player>, i: int)
    requires EmptyHands(players) && 0 <= i < |players|
    ensures D.Deal(players, [], Printed())[i].hand == []
  {
    hide Printed;
  }

  // ---------------------------------------------------------------- the two hands

  /** Twelve hearts. */
  lemma FirstHand()
    ensures OneSuit(Printed()[..12])
  {
    forall i | 0 <= i < 12
      ensures Printed()[i] == Natural(i + 1, Hearts)
    {
    }
  }

  lemma {:induction false} DiamondPoints(k: nat)
    requires k <= 11
    ensures PointSum([Natural(KING, Hearts)] + SuitCards(Diamonds)[..k]) <=
              if k == 0 then 10 else if k <= 5 then 5 * k + 15 else 10 * k - 10
  {
    var cards := [Natural(KING, Hearts)] + SuitCards(Diamonds)[..k];
    if k == 0 {
      assert cards == [Natural(KING, Hearts)] && cards[..0] == [];
    } else {
      DiamondPoints(k - 1);
      assert cards[..k] == [Natural(KING, Hearts)] + SuitCards(Diamonds)[..k - 1];
      assert cards[k] == Natural(k, Diamonds);
    }
  }

  /** The king of hearts and the diamonds up to the jack. */
  lemma SecondHand()
    ensures HandPoints(Printed()[12..24]) <= SCORE_LIMIT
  {
    assert Printed()[12..24] == [Natural(KING, Hearts)] + SuitCards(Diamonds)[..11];
    DiamondPoints(11);
  }

  // ---------------------------------------------------------------- a round won from the deal

  lemma FirstWins(players: seq<Player>)
    requires TwoPlayers(players) && OneSuit(players[0].hand)
    ensures FirstSpecial(players) == 0
  {
    hide OneSuit, SixPairs;
    assert players[..1][..0] == [];
    assert FirstSpecial(players[..1]) == 0;
  }

  /** Started on the printed deck, a round is over at once and the first player has won it. */
  lemma DealtRound(s: State, dealer: int) returns (u: State)
    requires TwoPlayers(s.players) && EmptyHands(s.players) && s.drawPile == Printed() && 0 <= dealer < 2
    ensures |u.players| == 2 && u.players[0].hand == Printed()[..12] && u.players[1].hand == Printed()[12..24]
    ensures u.mode == s.mode && u.round == s.round && u.dealerIndex == dealer
    ensures forall i :: 0 <= i < 2 ==>
              u.players[i] == s.players[i].(hand := u.players[i].hand, statistics := Counted(s.players[i].statistics))
    ensures StartRound(s, dealer, PreviousOf(ActiveFlags(s.players), dealer), D.InBlocks, Some(ORDER), 0) ==
              Outcome(FinishRound(u, 0), None)
  {
    hide Printed, FinishRound, D.InitialDeal, D.ActiveIndexes, OneSuit, SixPairs, FirstSpecial, PreviousOf;
    BothActive(s.players);
    PrintedDeal(s.players, dealer);
    D.DealConserves(s.players, Printed(), D.InBlocks, Some(ORDER), dealer, 0);
    var d := D.InitialDeal(s.players, Printed(), D.InBlocks, Some(ORDER), dealer, 0).value;
    u := JustDealt(s, dealer, d);
    FirstHand();
    FirstWins(CountRound(d.players));
  }

  function Counted(s: Statistics): Statistics {
    s.(roundsPlayed := s.roundsPlayed + 1)
  }

  // ---------------------------------------------------------------- the game

  const DEALS_ITSELF: seq<Op> := [Join("a"), Join("b"), Start(0, 1, D.InBlocks, Some(ORDER), 0, Full),
                                  NextRound(D.InBlocks, Some(ORDER), 0, Printed())]

  /** The first win leaves the game running: the other player stays within the limit, and the win is on the record. */
  lemma FirstRound(u: State)
    requires TwoPlayers(u.players) && u.players[0].hand == Printed()[..12] && u.players[1].hand == Printed()[12..24]
    requires u.mode == Full && u.round == 1 && u.dealerIndex == 0
    requires u.players[1].totalPoints == 0 && forall i :: 0 <= i < 2 ==>
               u.players[i].statistics == Counted(NO_STATISTICS)
    ensures var t := FinishRound(u, 0); var s := t.players[0].statistics;
            && t.phase == RoundOver && t.round == 1 && t.dealerIndex == 0 && TwoPlayers(t.players)
            && s.roundsWon == 1 && s.sameSuitWins == 1 && s.lastRecordedRound == 1
  {
    hide Printed, OneSuit, SixPairs, HandPoints;
    FirstHand();
    SecondHand();
    var scored := ScoredPlayers(u.players, 1, 0);
    assert scored[1].totalPoints <= SCORE_LIMIT;
    AdjustedCounters(scored, 1, false);
  }

  /** The game with its two players seated. */
  ghost function TwoSeated(): State {
    NewGame(Printed()).(players := [NewPlayer("a"), NewPlayer("b")])
  }

  lemma JoinTwo()
    ensures var s := AddPlayer(NewGame(Printed()), NewPlayer("a"));
            s.error.None? && AddPlayer(s.state, NewPlayer("b")) == Outcome(TwoSeated(), None)
  {
    hide Printed;
  }

  lemma OtherIsBehind(active: seq<bool>)
    requires active == [true, true]
    ensures PreviousOf(active, 0) == 1
  {
    assert IsActive(active, Backward(0, 1, 2));
  }

  lemma Started()
    ensures var r := StartGame(TwoSeated(), 0, 1, D.InBlocks, Some(ORDER), 0, Full);
            var t, s := r.state, r.state.players[0].statistics;
            && r.error.None? && t.phase == RoundOver && t.round == 1 && t.dealerIndex == 0 && TwoPlayers(t.players)
            && s.roundsWon == 1 && s.sameSuitWins == 1 && s.lastRecordedRound == 1
  {
    hide Printed, StartRound, FinishRound, PreviousOf;
    var s := Reset(TwoSeated(), Printed()).(mode := Full);
    OtherIsBehind(ActiveFlags(s.players));
    var u := DealtRound(s, 0);
    FirstRound(u);
  }

  lemma StartedAgain(s: State)
    requires s.phase == RoundOver && TwoPlayers(s.players) && s.dealerIndex == 0
    ensures var r := StartNextRound(s, D.InBlocks, Some(ORDER), 0, Printed());
            && r.error.None? && r.state.phase != InProgress && r.state.phase != Lobby && r.state.roundWinnerIndex == 0
            && |r.state.players| == 2 && r.state.players[0].hand == Printed()[..12]
  {
    hide Printed, StartRound, FinishRound, PreviousOf, NextOf, FirstSpecial;
    var u := Reset(s, Printed());
    var v := DealtRound(u, NextOf(ActiveFlags(s.players), 0));
    WonByWinner(v, 0);
    FinishLength(v, 0);
    FinishedPhase(v, 0);
  }

  /** Nothing in the run fails. */
  lemma GameRunsThrough() returns (states: seq<State>)
    ensures RolledBackRun(states, DEALS_ITSELF) && |states| == 5
    ensures states[3] == StartGame(TwoSeated(), 0, 1, D.InBlocks, Some(ORDER), 0, Full).state
    ensures states[4] == StartNextRound(states[3], D.InBlocks, Some(ORDER), 0, Printed()).state
  {
    hide Printed, StartGame, StartNextRound, AddPlayer, Inv, Seated;
    var first := NewGame(Printed());
    var second := AddPlayer(first, NewPlayer("a")).state;
    JoinTwo();
    Started();
    var fourth := StartGame(TwoSeated(), 0, 1, D.InBlocks, Some(ORDER), 0, Full).state;
    StartedAgain(fourth);
    states := [first, second, TwoSeated(), fourth, StartNextRound(fourth, D.InBlocks, Some(ORDER), 0, Printed()).state];
    PrintedIsDoubleDeck();
  }

  /** After the second round of this game the store refuses the record: one round won, but two wins with cards
      of one suit. */
  lemma TwoDealtWinsAreRefused() returns (states: seq<State>)
    ensures RolledBackRun(states, DEALS_ITSELF) && |states| == 5 && states[4].phase != Lobby
    ensures !RecordAccepted(states[4].players, states[4].round)
  {
    hide RolledBackRun, Printed, StartGame, StartNextRound, RecordAccepted, CountersOk, OneSuit, Inv;
    states := GameRunsThrough();
    Started();
    StartedAgain(states[3]);
    RunsKeepCounters(states, DEALS_ITSELF, 3);
    SeatedInv(states[3]);
    NextRoundWonFromDeal(states[3], DEALS_ITSELF[3]);
    FirstHand();
    assert !WinnerCovered(states[3].players[0].statistics, states[4].players[0].hand, 1);
  }

  lemma PrintedIsDoubleDeck()
    ensures multiset(Printed()) == DoubleDeck()
  {
  }
}
