/** Discards, finished rounds, deals and forfeits keep the invariant. */
module GameRounds {
  import opened Cards
  import opened Compositions
  import opened Piles
  import opened TablePlay
  import opened Rotation
  import opened SpecialHands
  import opened RoundScoring
  import opened GameModel
  import opened GameInvariants
  import CompositionObjects
  import D = Dealing

  // ---------------------------------------------------------------- the state between two turns

  /** Nobody holds a drawn card: every active hand has 1 to 12 cards. */
  predicate RestingHands(players: seq<Player>) {
    forall i :: 0 <= i < |players| ==>
      if players[i].forfeited then players[i].hand == [] else 1 <= |players[i].hand| <= INITIAL_HAND_SIZE
  }

  /** Enough to score a round. */
  ghost predicate Scorable(s: State) {
    && Conserved(s) && Seated(s) && TwoActive(s.players) && TotalsWithinLimit(s.players)
    && PenaltySum(s.players) == InflictedSum(s.players)
  }

  /** Enough to pass the turn on. */
  ghost predicate Resting(s: State) {
    Scorable(s) && s.phase == InProgress && RestingHands(s.players) && Held(s) <= INITIAL_HAND_SIZE * |s.players|
  }

  lemma SameCards(s: State, t: State)
    requires |t.players| == |s.players| && forall i :: 0 <= i < |s.players| ==> t.players[i].hand == s.players[i].hand
    requires t.table == s.table && t.drawPile == s.drawPile && t.discardPile == s.discardPile
    ensures AllCards(t) == AllCards(s) && Held(t) == Held(s)
  {
    SameHands(s.players, t.players);
  }

  // ---------------------------------------------------------------- passing the turn

  lemma NextSeat(players: seq<Player>, index: int)
    requires 0 <= index < |players| && TwoActive(players)
    ensures var next := NextOf(ActiveFlags(players), index);
            0 <= next < |players| && !players[next].forfeited && next != index
  {
    var flags := ActiveFlags(players);
    var i, j :| 0 <= i < j < |players| && !players[i].forfeited && !players[j].forfeited;
    assert flags[i] && flags[j];
    NextIsActive(flags, index, NextOf(flags, index));
  }

  lemma AdvancedCards(s: State)
    requires 0 <= s.turn.playerIndex < |s.players|
    ensures var t := AdvanceTurn(s);
            AllCards(t) == AllCards(s) && Held(t) == Held(s) &&
            t == s.(drawPile := t.drawPile, discardPile := t.discardPile, turn := t.turn)
    ensures AdvanceTurn(s).turn ==
            Turn(s.turn.number + 1, NextOf(ActiveFlags(s.players), s.turn.playerIndex), false, false, None)
  {
    hide Recycled, NextOf, D.HandCards, TableCards;
    var t := s.(turn := Turn(s.turn.number + 1, NextOf(ActiveFlags(s.players), s.turn.playerIndex), false, false,
                             None));
    RecycledKeeps(t);
    assert AdvanceTurn(s) == Recycled(t);
  }

  lemma RestingSizes(s: State)
    requires RestingHands(s.players)
    ensures HandSizes(s)
  {
  }

  lemma AdvanceKeeps(s: State)
    requires Resting(s)
    ensures Inv(AdvanceTurn(s)) && AdvanceTurn(s).phase == InProgress && !AdvanceTurn(s).turn.mustUseDiscardDraw
  {
    hide AdvanceTurn, NextOf, Seated, TotalsWithinLimit, PenaltySum, InflictedSum, TwoActive, AllOk, AllCards, Held,
         HandSizes, RestingHands;
    SeatedBasics(s);
    NextSeat(s.players, s.turn.playerIndex);
    AdvancedCards(s);
    StillSeated(s, AdvanceTurn(s));
    RestingSizes(AdvanceTurn(s));
  }

  // ---------------------------------------------------------------- finishing a round

  lemma ScoredPlayersSame(players: seq<Player>, round: int, winner: int)
    requires 0 <= winner < |players|
    ensures var after := ScoredPlayers(players, round, winner);
            forall i :: 0 <= i < |players| ==>
              after[i].id == players[i].id && after[i].hand == players[i].hand &&
              after[i].forfeited == players[i].forfeited
  {
    hide Recorded, HandPoints, OneSuit, SixPairs, Inflicted;
  }

  lemma AdjustedSame(players: seq<Player>)
    ensures var after := Adjusted(players);
            forall i :: 0 <= i < |players| ==>
              after[i].id == players[i].id && after[i].hand == players[i].hand &&
              after[i].forfeited == players[i].forfeited
  {
    hide HighestRemaining;
  }

  lemma FinishedPlayers(s: State, winner: int)
    requires 0 <= winner < |s.players|
    ensures var t := FinishRound(s, winner);
            && t == s.(players := t.players, phase := t.phase, roundWinnerIndex := winner,
                       turn := Cleared(s.turn).(hasDrawn := false))
            && |t.players| == |s.players|
            && (forall i :: 0 <= i < |s.players| ==>
                  t.players[i].id == s.players[i].id && t.players[i].hand == s.players[i].hand &&
                  t.players[i].forfeited == s.players[i].forfeited)
            && PenaltySum(t.players) - InflictedSum(t.players) == PenaltySum(s.players) - InflictedSum(s.players)
  {
    hide ScoredPlayers, Adjusted, OthersOverLimit, PenaltySum, InflictedSum;
    ScoredPlayersSame(s.players, s.round, winner);
    var scored := ScoredPlayers(s.players, s.round, winner);
    AdjustedSame(scored);
    ScoringBalances(s.players, s.round, winner);
    AdjustmentKeepsSums(scored);
  }

  lemma FinishedTotals(s: State, winner: int)
    requires 0 <= winner < |s.players| && !s.players[winner].forfeited && TotalsWithinLimit(s.players)
    ensures var t := FinishRound(s, winner);
            (t.phase == GameOver <==>
               s.mode == Quick || OthersOverLimit(ScoredPlayers(s.players, s.round, winner), winner)) &&
            (t.phase != GameOver ==> t.phase == RoundOver && TotalsWithinLimit(t.players))
  {
    hide ScoredPlayers, Adjusted, OthersOverLimit, TotalsWithinLimit;
    AdjustmentRestoresLimit(s.players, s.round, winner);
  }

  /** Scoring moves no card, balances penalties, and either ends the game or brings every active
      total back within the limit. */
  lemma FinishRoundKeeps(s: State, winner: int)
    requires Scorable(s) && 0 <= winner < |s.players| && !s.players[winner].forfeited
    ensures Inv(FinishRound(s, winner)) && !FinishRound(s, winner).turn.mustUseDiscardDraw
  {
    hide FinishRound, ScoredPlayers, OthersOverLimit, PenaltySum, InflictedSum, TotalsWithinLimit, AllOk, AllCards,
         TwoActive, Seated;
    SeatedBasics(s);
    var t := FinishRound(s, winner);
    FinishedPlayers(s, winner);
    FinishedTotals(s, winner);
    SameCards(s, t);
    KeepsTwoActive(s.players, t.players);
    StillSeated(s, t);
  }

  // ---------------------------------------------------------------- discarding

  lemma {:induction false} RemoveCompletedKeeps(table: seq<Comp>, pile: seq<Card>)
    requires AllOk(table)
    ensures var r := RemoveCompleted(table, pile);
            AllOk(r.table) && TableCards(r.table) + multiset(r.discardPile) == TableCards(table) + multiset(pile) &&
            |r.discardPile| >= |pile|
  {
    hide CompositionObjects.Complete, CompOk;
    if table != [] {
      var k := |table| - 1;
      RemoveCompletedKeeps(table[..k], pile);
      var r, c := RemoveCompleted(table[..k], pile), table[k];
      if !CompositionObjects.Complete(c.variant, c.cards) {
        assert (r.table + [c])[..|r.table|] == r.table;
        Append(TableCards(r.table), multiset(c.cards), multiset(r.discardPile), TableCards(table[..k]), multiset(pile));
      } else {
        assert multiset(c.cards + r.discardPile) == multiset(c.cards) + multiset(r.discardPile);
        Append(TableCards(r.table), multiset(c.cards), multiset(r.discardPile), TableCards(table[..k]), multiset(pile));
      }
    }
  }

  lemma Append(a: multiset<Card>, c: multiset<Card>, d: multiset<Card>, t: multiset<Card>, p: multiset<Card>)
    requires a + d == t + p
    ensures a + c + d == t + c + p && a + (c + d) == t + c + p
  {
    assert a + c + d == a + d + c;
    assert t + c + p == t + p + c;
  }

  lemma DiscardedCards(s: State, i: int, k: int)
    requires 0 <= i < |s.players| && 0 <= k < |s.players[i].hand| && AllOk(s.table)
    ensures var d := Discarded(s, i, k); AllOk(d.table) && AllCards(d) == AllCards(s) && Held(d) < Held(s)
  {
    hide RemoveCompleted, TableCards, D.HandCards, CompOk, AllOk, WithoutAt;
    var hand := s.players[i].hand;
    var r := RemoveCompleted(s.table, s.discardPile);
    RemoveCompletedKeeps(s.table, s.discardPile);
    NewHand(s, i, WithoutAt(hand, k));
    WithoutAtCards(hand, k);
    var d := Discarded(s, i, k);
    var h, w := D.HandCards(s.players), multiset(WithoutAt(hand, k));
    Moved(h, w, hand[k], multiset(hand), TableCards(r.table), multiset(r.discardPile),
          TableCards(s.table), multiset(s.discardPile), multiset(s.drawPile));
    OnTop(hand[k], r.discardPile);
  }

  lemma OnTop(c: Card, pile: seq<Card>)
    ensures multiset([c] + pile) == multiset{c} + multiset(pile)
  {
  }

  lemma Moved(h: multiset<Card>, w: multiset<Card>, c: Card, hand: multiset<Card>, t': multiset<Card>,
              p': multiset<Card>,
              t: multiset<Card>, p: multiset<Card>, draw: multiset<Card>)
    requires hand <= h && hand == w + multiset{c} && t' + p' == t + p
    ensures draw + (multiset{c} + p') + (h - hand + w) + t' == draw + p + h + t
    ensures |h - hand + w| + |t'| < |h| + |t| + |p|
    ensures |p| <= |p'| ==> |h - hand + w| + |t'| < |h| + |t|
  {
    var rest := h - hand;
    assert h == rest + (w + multiset{c});
    assert draw + (multiset{c} + p') + (rest + w) + t' == draw + (t' + p') + (rest + (w + multiset{c}));
    assert draw + p + h + t == draw + (t + p) + h;
    assert |t' + p'| == |t'| + |p'| && |t + p| == |t| + |p|;
  }

  /** What is left of the current hand after a discard, and everything else as it was. */
  lemma DiscardedPlayers(s: State, i: int, k: int)
    requires 0 <= i < |s.players| && 0 <= k < |s.players[i].hand|
    ensures var d := Discarded(s, i, k);
            && d == s.(players := d.players, table := d.table, discardPile := d.discardPile)
            && d.players == s.players[i := s.players[i].(hand := WithoutAt(s.players[i].hand, k))]
            && PenaltySum(d.players) == PenaltySum(s.players) && InflictedSum(d.players) == InflictedSum(s.players)
  {
    SameSums(s, i, WithoutAt(s.players[i].hand, k));
  }

  /** Only one hand differs. */
  lemma SamePeople(players: seq<Player>, i: int, hand: seq<Card>)
    requires 0 <= i < |players| && TwoActive(players) && TotalsWithinLimit(players)
    ensures var after := players[i := players[i].(hand := hand)];
            SameIds(players, after) && TwoActive(after) && TotalsWithinLimit(after)
  {
    var after := players[i := players[i].(hand := hand)];
    KeepsTwoActive(players, after);
  }

  lemma DiscardedScorable(s: State, k: int)
    requires Inv(s) && s.phase == InProgress && 0 <= k < |s.players[s.turn.playerIndex].hand|
    ensures Scorable(Discarded(s, s.turn.playerIndex, k))
  {
    hide Discarded, WithoutAt, PenaltySum, InflictedSum, AllCards, AllOk, Held, HandSizes, TwoActive,
         TotalsWithinLimit, SameIds;
    var i := s.turn.playerIndex;
    var d := Discarded(s, i, k);
    DiscardedCards(s, i, k);
    DiscardedPlayers(s, i, k);
    SamePeople(s.players, i, WithoutAt(s.players[i].hand, k));
    StillSeated(s, d);
  }

  lemma DiscardedHands(s: State, i: int, k: int)
    requires HandSizes(s) && i == s.turn.playerIndex && 0 <= i < |s.players| && !s.players[i].forfeited
    requires 0 <= k < |s.players[i].hand| && |s.players[i].hand| > 1
    ensures RestingHands(s.players[i := s.players[i].(hand := WithoutAt(s.players[i].hand, k))])
  {
  }

  lemma DiscardedRests(s: State, k: int)
    requires Inv(s) && s.phase == InProgress && s.turn.hasDrawn && |s.players[s.turn.playerIndex].hand| > 1
    requires 0 <= k < |s.players[s.turn.playerIndex].hand|
    ensures Resting(Discarded(s, s.turn.playerIndex, k))
  {
    var i := s.turn.playerIndex;
    DiscardedScorable(s, k);
    DiscardedCards(s, i, k);
    DiscardedPlayers(s, i, k);
    DiscardedHands(s, i, k);
    hide Discarded, WithoutAt, Scorable, TwoActive, TotalsWithinLimit, AllCards, Held, Conserved, Seated, PenaltySum,
         InflictedSum, HandSizes, RestingHands;
  }

  lemma DiscardKeeps(s: State, index: int, expected: Option<Card>)
    requires Inv(s)
    ensures Keeps(s, Discard(s, index, expected).state)
  {
    hide MatchIndex, WinsRound, FinishRound, AdvanceTurn, Discarded;
    if Discard(s, index, expected).error.None? {
      var i := s.turn.playerIndex;
      var k := MatchIndex(s.players[i].hand, index, expected);
      var d := Discarded(s, i, k);
      DiscardedPlayers(s, i, k);
      if WinsRound(d.players[i].hand) {
        DiscardedScorable(s, k);
        FinishRoundKeeps(d, i);
      } else {
        NotWon(d.players[i].hand);
        DiscardedRests(s, k);
        AdvanceKeeps(d);
      }
    }
  }

  lemma NotWon(hand: seq<Card>)
    requires !WinsRound(hand)
    ensures hand != []
  {
  }

  // ---------------------------------------------------------------- starting a round

  /** Cleared for a new deal: nothing in hands, on the table or discarded, the whole deck in the draw pile. */
  ghost predicate Ready(s: State) {
    Inv(s) && s.phase == Lobby && !s.turn.mustUseDiscardDraw && !s.turn.hasDrawn
  }

  lemma ResetPlayers(s: State, deck: seq<Card>)
    ensures var t := Reset(s, deck);
            && |t.players| == |s.players| && EmptyHands(t.players) && SameIds(s.players, t.players)
            && (forall i :: 0 <= i < |s.players| ==>
                  t.players[i].totalPoints == s.players[i].totalPoints &&
                  t.players[i].forfeited == s.players[i].forfeited &&
                  t.players[i].statistics == s.players[i].statistics)
  {
  }

  lemma ResetReady(s: State, deck: seq<Card>, mode: Mode)
    requires Seated(s) && TotalsWithinLimit(s.players) && PenaltySum(s.players) == InflictedSum(s.players)
    requires multiset(deck) == DoubleDeck() && mode != UnknownMode
    ensures Ready(Reset(s, deck).(mode := mode))
  {
    hide Seated, TotalsWithinLimit, EmptyHands, PenaltySum, InflictedSum, D.HandCards, AllCards;
    var t := Reset(s, deck).(mode := mode);
    ResetPlayers(s, deck);
    NoHands(t.players);
    SameStatisticsSameSums(s.players, t.players);
    SameTotals(s.players, t.players);
    SeatedAgain(s, t);
    ResetCards(s, deck, mode);
  }

  lemma ResetCards(s: State, deck: seq<Card>, mode: Mode)
    ensures AllCards(Reset(s, deck).(mode := mode)) == multiset(deck)
  {
    var t := Reset(s, deck).(mode := mode);
    NoHands(t.players);
    assert TableCards([]) == multiset{};
  }

  lemma SeatedAgain(s: State, t: State)
    requires Seated(s) && SameIds(s.players, t.players) && t.maxPlayers == s.maxPlayers && t.round == s.round
    requires t.dealerIndex == s.dealerIndex && t.turn == FIRST_TURN && t.roundWinnerIndex == -1
    requires t.mode != UnknownMode && t.phase == Lobby
    ensures Seated(t)
  {
  }

  lemma SomeActive(players: seq<Player>)
    requires |D.ActiveIndexes(players)| >= 2
    ensures TwoActive(players)
  {
    var r := D.ActiveIndexes(players);
    assert r[0] < r[1];
    assert !players[r[0]].forfeited && !players[r[1]].forfeited;
  }

  /** The state right after the deal, before anyone may have won. */
  ghost function JustDealt(s: State, dealer: int, d: D.Dealt): State
    requires |d.pile| > 0
  {
    s.(players := CountRound(d.players), dealerIndex := dealer, drawPile := d.pile[1..],
       discardPile := [d.pile[0]] + s.discardPile)
  }

  /** A deal: the cards are all there and each active player holds twelve of them. */
  ghost predicate GoodDeal(s: State, d: D.Dealt) {
    && |d.players| == |s.players| && |d.pile| > 0
    && D.HandCards(d.players) + multiset(d.pile) == D.HandCards(s.players) + multiset(s.drawPile)
    && |d.pile| == |s.drawPile| - INITIAL_HAND_SIZE * |D.ActiveIndexes(s.players)|
    && forall i :: 0 <= i < |s.players| ==>
         d.players[i] == s.players[i].(hand := d.players[i].hand) &&
         |d.players[i].hand| == |s.players[i].hand| + if s.players[i].forfeited then 0 else INITIAL_HAND_SIZE
  }

  lemma {:induction false} ActiveAtMost(players: seq<Player>)
    ensures |D.ActiveIndexes(players)| <= |players|
  {
    if players != [] {
      ActiveAtMost(players[..|players| - 1]);
    }
  }

  lemma JustDealtCards(s: State, dealer: int, d: D.Dealt)
    requires Ready(s) && GoodDeal(s, d)
    ensures var t := JustDealt(s, dealer, d); Conserved(t) && Held(t) <= INITIAL_HAND_SIZE * |t.players|
  {
    hide D.HandCards;
    var t := JustDealt(s, dealer, d);
    SameHands(d.players, t.players);
    NoHands(s.players);
    ActiveAtMost(s.players);
    FirstCard(d.pile);
    OnTop(d.pile[0], s.discardPile);
    assert D.HandCards(t.players) + multiset(d.pile) == multiset(s.drawPile);
    assert AllCards(t) == D.HandCards(t.players) + multiset(d.pile);
    assert AllCards(s) == multiset(s.drawPile);
    assert |D.HandCards(t.players) + multiset(d.pile)| == |D.HandCards(t.players)| + |d.pile|;
    assert |multiset(s.drawPile)| == |s.drawPile|;
  }

  /** A deal changes hands and counts the round; nothing else. */
  lemma JustDealtPeople(s: State, dealer: int, d: D.Dealt)
    requires GoodDeal(s, d)
    ensures var t := JustDealt(s, dealer, d);
            |t.players| == |s.players| &&
            forall i :: 0 <= i < |s.players| ==>
              t.players[i].id == s.players[i].id && t.players[i].forfeited == s.players[i].forfeited &&
              t.players[i].totalPoints == s.players[i].totalPoints &&
              t.players[i].statistics.penaltyPoints == s.players[i].statistics.penaltyPoints &&
              t.players[i].statistics.pointsInflicted == s.players[i].statistics.pointsInflicted
  {
    hide D.HandCards, D.ActiveIndexes;
  }

  lemma JustDealtHands(s: State, dealer: int, d: D.Dealt)
    requires GoodDeal(s, d) && EmptyHands(s.players)
    ensures RestingHands(JustDealt(s, dealer, d).players)
  {
    hide D.HandCards, D.ActiveIndexes;
  }

  lemma JustDealtScorable(s: State, dealer: int, d: D.Dealt)
    requires Ready(s) && GoodDeal(s, d) && 0 <= dealer < |s.players| && |D.ActiveIndexes(s.players)| >= 2
    ensures var t := JustDealt(s, dealer, d);
            Scorable(t) && RestingHands(t.players) && Held(t) <= INITIAL_HAND_SIZE * |t.players| && !t.turn.hasDrawn
  {
    var t := JustDealt(s, dealer, d);
    JustDealtCards(s, dealer, d);
    JustDealtPeople(s, dealer, d);
    JustDealtHands(s, dealer, d);
    SomeActive(s.players);
    hide JustDealt, GoodDeal, D.ActiveIndexes;
    JustDealtFields(s, dealer, d);
    SameStatisticsSameSums(s.players, t.players);
    KeepsTwoActive(s.players, t.players);
    SameTotals(s.players, t.players);
    StillSeated(s, t);
    hide Seated, TotalsWithinLimit, TwoActive, PenaltySum, InflictedSum, RestingHands, AllCards, AllOk, Held;
  }

  lemma JustDealtFields(s: State, dealer: int, d: D.Dealt)
    requires |d.pile| > 0
    ensures var t := JustDealt(s, dealer, d);
            t == s.(players := t.players, dealerIndex := dealer, drawPile := t.drawPile, discardPile := t.discardPile)
  {
    hide CountRound;
  }

  lemma DealtKeeps(s: State, dealer: int, d: D.Dealt)
    requires Ready(s) && GoodDeal(s, d) && 0 <= dealer < |s.players| && |D.ActiveIndexes(s.players)| >= 2
    ensures Inv(Dealt(s, dealer, d)) && !Dealt(s, dealer, d).turn.mustUseDiscardDraw
  {
    var t := JustDealt(s, dealer, d);
    JustDealtScorable(s, dealer, d);
    var special := FirstSpecial(t.players);
    hide OneSuit, SixPairs, FinishRound, NextOf, Inv, GoodDeal, RestingHands, Held, CountRound;
    if special < |t.players| {
      FinishRoundKeeps(t, special);
    } else {
      NextSeat(t.players, dealer);
      var u := t.(phase := InProgress, turn := t.turn.(playerIndex := NextOf(ActiveFlags(t.players), dealer)));
      assert Dealt(s, dealer, d) == u;
      SameCards(t, u);
      Progress(t, u);
      Unobliged(s);
    }
  }

  lemma Unobliged(s: State)
    requires Ready(s)
    ensures !s.turn.mustUseDiscardDraw
  {
  }

  lemma Progress(t: State, u: State)
    requires Scorable(t) && RestingHands(t.players) && Held(t) <= INITIAL_HAND_SIZE * |t.players|
    requires u == t.(phase := InProgress, turn := u.turn) && !t.turn.hasDrawn &&
             u.turn == t.turn.(playerIndex := u.turn.playerIndex)
    requires HasCurrent(u) && AllCards(u) == AllCards(t) && Held(u) == Held(t)
    ensures Inv(u)
  {
    hide Seated, RestingHands, HandSizes, TotalsWithinLimit, TwoActive, AllCards, Held, AllOk, PenaltySum, InflictedSum;
    SeatedBasics(t);
    RestingSizes(u);
    StillSeated(t, u);
  }

  lemma StartRoundKeeps(s: State, dealer: int, chooser: int, dt: D.DealType, order: Option<seq<int>>, cut: int)
    requires Ready(s)
    ensures var r := StartRound(s, dealer, chooser, dt, order, cut).state;
            Inv(r) && !r.turn.mustUseDiscardDraw && (r.phase == Lobby ==> Ready(r))
  {
    var r := StartRound(s, dealer, chooser, dt, order, cut);
    hide Dealt, PreviousOf, ActiveFlags, D.ActiveIndexes, D.InitialDeal;
    if r.error.None? {
      D.DealConserves(s.players, s.drawPile, dt, order, dealer, cut);
      var d := D.InitialDeal(s.players, s.drawPile, dt, order, dealer, cut).value;
      DealtKeeps(s, dealer, d);
      DealtPhase(s, dealer, d);
    } else if r.state != s {
      StillSeated(s, r.state);
      SameCards(s, r.state);
    }
  }

  lemma DealtPhase(s: State, dealer: int, d: D.Dealt)
    requires |d.players| == |s.players| && |d.pile| > 0 && 0 <= dealer < |s.players|
    ensures Dealt(s, dealer, d).phase != Lobby
  {
    hide ScoredPlayers, Adjusted, FirstSpecial, NextOf, OthersOverLimit;
  }

  lemma StartGameKeeps(s: State, dealer: int, chooser: int, dt: D.DealType, order: Option<seq<int>>, cut: int,
                       mode: Mode)
    requires Inv(s)
    ensures Keeps(s, StartGame(s, dealer, chooser, dt, order, cut, mode).state)
  {
    if s.phase == Lobby && mode != UnknownMode {
      LobbyHoldsAll(s);
      ResetReady(s, s.drawPile, mode);
      hide Reset, StartRound, Inv;
      StartRoundKeeps(Reset(s, s.drawPile).(mode := mode), dealer, chooser, dt, order, cut);
    }
  }

  lemma LobbyHoldsAll(s: State)
    requires Inv(s) && s.phase == Lobby
    ensures multiset(s.drawPile) == DoubleDeck()
  {
    NoHands(s.players);
  }

  /** Ready or running, with the round counted up. */
  lemma CountUp(s: State)
    requires Inv(s)
    ensures Inv(s.(round := s.round + 1))
  {
    hide Seated, TotalsWithinLimit, TwoActive, AllCards, AllOk, PenaltySum, InflictedSum;
    SeatedBasics(s);
    var t := s.(round := s.round + 1);
    StillSeated(s, t);
    SameCards(s, t);
  }

  lemma Kept(s: State, t: State)
    requires Inv(t) && !t.turn.mustUseDiscardDraw
    ensures Keeps(s, t)
  {
    hide Inv;
  }

  lemma NextDealKeeps(s: State, dt: D.DealType, order: Option<seq<int>>, cut: int, deck: seq<Card>)
    requires Inv(s) && s.phase == RoundOver && multiset(deck) == DoubleDeck()
    ensures var t := NextDeal(s, dt, order, cut, deck).state; Inv(t) && !t.turn.mustUseDiscardDraw
  {
    ResetReady(s, deck, s.mode);
    assert Reset(s, deck).(mode := s.mode) == Reset(s, deck);
    hide Reset, StartRound, Inv, NextOf, PreviousOf, ActiveFlags;
    var flags := ActiveFlags(s.players);
    var dealer := NextOf(flags, s.dealerIndex);
    StartRoundKeeps(Reset(s, deck), dealer, PreviousOf(flags, dealer), dt, order, cut);
  }

  lemma StartNextRoundKeeps(s: State, dt: D.DealType, order: Option<seq<int>>, cut: int, deck: seq<Card>)
    requires Inv(s) && multiset(deck) == DoubleDeck()
    ensures Keeps(s, StartNextRound(s, dt, order, cut, deck).state)
  {
    hide NextDeal, Keeps, InPhase, Conserved;
    Unchanged(s);
    if s.phase == RoundOver {
      NextDealKeeps(s, dt, order, cut, deck);
      var r := NextDeal(s, dt, order, cut, deck).state;
      CountUp(r);
      Kept(s, r);
      Kept(s, r.(round := r.round + 1));
    }
  }

  // ---------------------------------------------------------------- players come and go

  function NewPlayer(id: string): Player {
    Player(id, [], 0, 0, 0, false, false, NO_STATISTICS)
  }

  lemma MoreSeated(s: State, id: string)
    requires Seated(s) && id != "" && AddPlayer(s, NewPlayer(id)).error.None?
    ensures Seated(AddPlayer(s, NewPlayer(id)).state)
  {
  }

  lemma AddedPlayer(s: State, id: string)
    requires Inv(s) && id != "" && AddPlayer(s, NewPlayer(id)).error.None?
    ensures Inv(AddPlayer(s, NewPlayer(id)).state)
  {
    var t := AddPlayer(s, NewPlayer(id)).state;
    MoreSeated(s, id);
    assert t.players[..|s.players|] == s.players;
    NoHands(s.players);
    NoHands(t.players);
    hide Seated, AllOk, TableCards;
  }

  lemma AddPlayerKeeps(s: State, id: string)
    requires Inv(s) && id != ""
    ensures Keeps(s, AddPlayer(s, NewPlayer(id)).state)
  {
    hide Inv, CanUse;
    if AddPlayer(s, NewPlayer(id)).error.None? {
      AddedPlayer(s, id);
    }
  }

  /** The players once seat `i` has forfeited. */
  ghost function Without(s: State, i: int, shuffled: seq<Card>): State
    requires 0 <= i < |s.players|
  {
    s.(players := s.players[i := Out(s.players[i], NextForfeitOrder(s.players, i))],
       drawPile := if s.players[i].hand == [] then s.drawPile else shuffled)
  }

  lemma WithoutCards(s: State, i: int, shuffled: seq<Card>)
    requires 0 <= i < |s.players| && multiset(shuffled) == multiset(s.drawPile) + multiset(s.players[i].hand)
    ensures var t := Without(s, i, shuffled); AllCards(t) == AllCards(s) && Held(t) == Held(s) - |s.players[i].hand|
  {
    hide D.HandCards, TableCards;
    var t := Without(s, i, shuffled);
    D.HandCardsUpdate(s.players, i, t.players[i]);
    var h, x := D.HandCards(s.players), multiset(s.players[i].hand);
    assert D.HandCards(t.players) == h - x;
    assert |h - x| == |h| - |x|;
    if x == multiset{} {
      assert h - x == h;
    } else {
      assert multiset(s.drawPile) + x + (h - x) == multiset(s.drawPile) + h;
      assert AllCards(t) == multiset(s.drawPile) + x + multiset(s.discardPile) + (h - x) + TableCards(s.table);
    }
  }

  lemma WithoutPeople(s: State, i: int, shuffled: seq<Card>)
    requires 0 <= i < |s.players|
    ensures var t := Without(s, i, shuffled);
            && SameIds(s.players, t.players) && PenaltySum(t.players) == PenaltySum(s.players)
            && InflictedSum(t.players) == InflictedSum(s.players)
            && (TotalsWithinLimit(s.players) ==> TotalsWithinLimit(t.players))
  {
    hide PenaltySum, InflictedSum, NextForfeitOrder;
    PenaltySumUpdate(s.players, i, Without(s, i, shuffled).players[i]);
  }

  lemma RecordedPeople(s: State, winner: int)
    ensures var after := RecordedAll(s.players, s.round, winner);
            && SameIds(s.players, after) && PenaltySum(after) == PenaltySum(s.players)
            && InflictedSum(after) == InflictedSum(s.players)
            && forall i :: 0 <= i < |s.players| ==> after[i].hand == s.players[i].hand
  {
    hide PenaltySum, InflictedSum;
    SameStatisticsSameSums(s.players, RecordedAll(s.players, s.round, winner));
  }

  lemma LastOneWins(s: State, winner: int)
    requires Conserved(s) && Seated(s) && PenaltySum(s.players) == InflictedSum(s.players) && 0 <= winner < |s.players|
    ensures var t := s.(players := RecordedAll(s.players, s.round, winner), roundWinnerIndex := winner,
                        phase := GameOver,
                        turn := Cleared(s.turn).(hasDrawn := false));
            Inv(t) && !t.turn.mustUseDiscardDraw
  {
    hide RecordedAll, Seated, PenaltySum, InflictedSum, AllCards, AllOk;
    SeatedBasics(s);
    var t := s.(players := RecordedAll(s.players, s.round, winner), roundWinnerIndex := winner, phase := GameOver,
                turn := Cleared(s.turn).(hasDrawn := false));
    RecordedPeople(s, winner);
    SameCards(s, t);
    StillSeated(s, t);
  }

  lemma WithoutHands(s: State, i: int, shuffled: seq<Card>)
    requires 0 <= i < |s.players| && HandSizes(s)
    ensures HandSizes(Without(s, i, shuffled))
    ensures i == s.turn.playerIndex ==> RestingHands(Without(s, i, shuffled).players)
  {
    hide NextForfeitOrder;
  }

  lemma ForfeitPassesTurn(s: State, i: int, shuffled: seq<Card>)
    requires Inv(s) && s.phase == InProgress && i == s.turn.playerIndex && TwoActive(Without(s, i, shuffled).players)
    requires multiset(shuffled) == multiset(s.drawPile) + multiset(s.players[i].hand)
    ensures Inv(AdvanceTurn(Without(s, i, shuffled))) && !AdvanceTurn(Without(s, i, shuffled)).turn.mustUseDiscardDraw
  {
    hide Without, AdvanceTurn, TwoActive, TotalsWithinLimit, RestingHands, PenaltySum, InflictedSum, AllCards, Held,
         AllOk;
    var t := Without(s, i, shuffled);
    WithoutCards(s, i, shuffled);
    WithoutPeople(s, i, shuffled);
    WithoutHands(s, i, shuffled);
    WithoutFields(s, i, shuffled);
    StillSeated(s, t);
    AdvanceKeeps(t);
  }

  lemma WithoutFields(s: State, i: int, shuffled: seq<Card>)
    requires 0 <= i < |s.players|
    ensures var t := Without(s, i, shuffled);
            t == s.(players := t.players, drawPile := t.drawPile) && |t.players| == |s.players|
    ensures forall j :: 0 <= j < |s.players| && j != i ==> Without(s, i, shuffled).players[j] == s.players[j]
  {
    hide NextForfeitOrder;
  }

  lemma ForfeitLeavesTurn(s: State, i: int, shuffled: seq<Card>)
    requires Inv(s) && 0 <= i < |s.players| && TwoActive(Without(s, i, shuffled).players)
    requires s.phase == RoundOver || (s.phase == InProgress && i != s.turn.playerIndex)
    requires multiset(shuffled) == multiset(s.drawPile) + multiset(s.players[i].hand)
    ensures Inv(Without(s, i, shuffled))
  {
    hide Without, TwoActive, TotalsWithinLimit, PenaltySum, InflictedSum, AllCards, Held, AllOk, HandSizes;
    var t := Without(s, i, shuffled);
    WithoutCards(s, i, shuffled);
    WithoutPeople(s, i, shuffled);
    WithoutFields(s, i, shuffled);
    if s.phase == InProgress {
      WithoutHands(s, i, shuffled);
    }
    StillSeated(s, t);
  }

  lemma StillSomeActive(s: State, i: int, shuffled: seq<Card>)
    requires 0 <= i < |s.players| && TwoActive(s.players)
    ensures |D.ActiveIndexes(Without(s, i, shuffled).players)| >= 1
  {
    hide NextForfeitOrder;
    var t := Without(s, i, shuffled).players;
    var a, b :| 0 <= a < b < |s.players| && !s.players[a].forfeited && !s.players[b].forfeited;
    D.EveryActiveIndex(t, if a == i then b else a);
  }

  lemma ForfeitEnds(s: State, i: int, shuffled: seq<Card>, winner: int)
    requires Inv(s) && 0 <= i < |s.players| && 0 <= winner < |s.players|
    requires multiset(shuffled) == multiset(s.drawPile) + multiset(s.players[i].hand)
    ensures var t := Without(s, i, shuffled);
            var u := t.(players := RecordedAll(t.players, s.round, winner), roundWinnerIndex := winner,
                        phase := GameOver,
                        turn := Cleared(s.turn).(hasDrawn := false));
            Inv(u) && !u.turn.mustUseDiscardDraw
  {
    var t := Without(s, i, shuffled);
    WithoutCards(s, i, shuffled);
    WithoutPeople(s, i, shuffled);
    WithoutFields(s, i, shuffled);
    hide Without, AllCards, AllOk, PenaltySum, InflictedSum, RecordedAll, InPhase, Seated;
    StillSeated(s, t);
    LastOneWins(t, winner);
  }

  lemma ObligationStays(s: State, i: int, shuffled: seq<Card>)
    requires 0 <= i < |s.players| && 0 <= s.turn.playerIndex < |s.players| &&
             (s.phase == InProgress ==> i != s.turn.playerIndex)
    requires Obligation(s) && (s.phase != InProgress ==> !s.turn.mustUseDiscardDraw)
    ensures Obligation(Without(s, i, shuffled))
  {
    hide Without, CanUse;
    WithoutFields(s, i, shuffled);
  }

  /** Outside a running round there is no obligation. */
  lemma ForfeitKept(s: State, i: int, shuffled: seq<Card>)
    requires Inv(s) && 0 <= i < |s.players| && TwoActive(Without(s, i, shuffled).players)
    requires s.phase == RoundOver || s.phase == InProgress
    requires multiset(shuffled) == multiset(s.drawPile) + multiset(s.players[i].hand)
    ensures var t := Without(s, i, shuffled);
            if s.phase == InProgress && s.turn.playerIndex == i then Keeps(s, AdvanceTurn(t)) else Keeps(s, t)
  {
    var t := Without(s, i, shuffled);
    if s.phase == InProgress && s.turn.playerIndex == i {
      ForfeitPassesTurn(s, i, shuffled);
      Kept(s, AdvanceTurn(t));
    } else {
      ForfeitLeavesTurn(s, i, shuffled);
      if Obligation(s) {
        ObligationStays(s, i, shuffled);
      }
    }
  }

  /** Forfeiting returns the hand to the draw pile; the last active player wins, otherwise play goes on. */
  lemma ForfeitKeeps(s: State, id: string, shuffled: seq<Card>)
    requires Inv(s)
    requires var i := SeatOf(s.players, id);
             i < |s.players| ==> multiset(shuffled) == multiset(s.drawPile) + multiset(s.players[i].hand)
    ensures Keeps(s, Forfeit(s, id, shuffled).state)
  {
    var r := Forfeit(s, id, shuffled);
    var i := SeatOf(s.players, id);
    if r.error.None? {
      StillSomeActive(s, i, shuffled);
      if |D.ActiveIndexes(Without(s, i, shuffled).players)| >= 2 {
        SomeActive(Without(s, i, shuffled).players);
      }
    }
    hide AdvanceTurn, Inv, Keeps, D.ActiveIndexes, TwoActive, RecordedAll, NextForfeitOrder;
    Unchanged(s);
    if r.error.None? {
      var active := D.ActiveIndexes(Without(s, i, shuffled).players);
      if |active| == 1 {
        ForfeitEnds(s, i, shuffled, active[0]);
        Kept(s, r.state);
      } else {
        ForfeitKept(s, i, shuffled);
      }
    }
  }

  lemma Unchanged(s: State)
    requires Inv(s)
    ensures Keeps(s, s)
  {
    hide Inv, Obligation;
  }

  lemma EndKeeps(s: State)
    requires Inv(s)
    ensures Keeps(s, EndWithoutWinner(s).state)
  {
    hide AllCards, AllOk, Seated, PenaltySum, InflictedSum, HandSizes, TotalsWithinLimit, TwoActive, Held;
    SeatedBasics(s);
    var r := EndWithoutWinner(s);
    if r.error.None? {
      SameCards(s, r.state);
      StillSeated(s, r.state);
    }
  }
}
