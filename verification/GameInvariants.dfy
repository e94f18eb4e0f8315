/** What every operation of the game keeps: all 108 cards, bounded hands, two active players, totals
    within the limit, balanced penalties, and a way to meet the discard obligation. */
module GameInvariants {
  import opened Cards
  import opened Compositions
  import opened Piles
  import opened TablePlay
  import opened PlayedCards
  import opened Rotation
  import opened SpecialHands
  import opened RoundScoring
  import opened SearchPlays
  import opened DiscardSearch
  import opened GameModel
  import CompositionObjects
  import D = Dealing

  // ---------------------------------------------------------------- the invariant

  ghost function AllCards(s: State): multiset<Card> {
    multiset(s.drawPile) + multiset(s.discardPile) + D.HandCards(s.players) + TableCards(s.table)
  }

  ghost predicate Conserved(s: State) {
    AllCards(s) == DoubleDeck() && AllOk(s.table)
  }

  predicate DistinctIds(players: seq<Player>) {
    forall i, j :: 0 <= i < j < |players| ==> players[i].id != players[j].id
  }

  predicate Seated(s: State) {
    && s.maxPlayers == 4 && |s.players| <= 4 && DistinctIds(s.players) && s.round >= 1 && s.turn.number >= 1
    && (forall i :: 0 <= i < |s.players| ==> s.players[i].id != "")
    && 0 <= s.turn.playerIndex && (|s.players| > 0 ==> s.turn.playerIndex < |s.players|)
    && (|s.players| == 0 ==> s.turn.playerIndex == 0)
    && 0 <= s.dealerIndex && (|s.players| > 0 ==> s.dealerIndex < |s.players|)
    && (|s.players| == 0 ==> s.dealerIndex == 0)
    && -1 <= s.roundWinnerIndex && (|s.players| > 0 ==> s.roundWinnerIndex < |s.players|)
    && (|s.players| == 0 ==> s.roundWinnerIndex == -1)
    && s.mode != UnknownMode && (s.phase == Lobby || |s.players| > 0)
  }

  function Drawn(s: State): nat {
    if s.turn.hasDrawn then 1 else 0
  }

  /** Cards in hands and on the table. */
  ghost function Held(s: State): nat {
    |D.HandCards(s.players)| + |TableCards(s.table)|
  }

  /** Active hands hold 1 to 12 cards, one more after a draw; forfeited hands are empty. */
  predicate HandSizes(s: State) {
    forall i :: 0 <= i < |s.players| ==>
      if s.players[i].forfeited then s.players[i].hand == []
      else 1 <= |s.players[i].hand| <= INITIAL_HAND_SIZE + (if i == s.turn.playerIndex then Drawn(s) else 0)
  }

  predicate EmptyHands(players: seq<Player>) {
    forall i :: 0 <= i < |players| ==> players[i].hand == []
  }

  ghost predicate TwoActive(players: seq<Player>) {
    exists i, j :: 0 <= i < j < |players| && !players[i].forfeited && !players[j].forfeited
  }

  /** While the drawn discard must be used, the search has a play that uses it. */
  ghost predicate Obligation(s: State) {
    s.turn.mustUseDiscardDraw ==>
      s.turn.hasDrawn && HasCurrent(s) && s.turn.discardDrawCard.Some? &&
      CanUse(s.players[s.turn.playerIndex], s.table, s.turn.discardDrawCard.value)
  }

  ghost predicate CanUse(p: Player, table: seq<Comp>, discard: Card) {
    p.hand != [] && p.hand[|p.hand| - 1] == discard &&
    exists t: SearchState, q: SearchPlay ::
      Accepted(t, q, q.reclaims) && BaseOf(t, p.hand, q) && t.table == table && t.hasOpened == p.hasOpened
  }

  ghost predicate InPhase(s: State) {
    match s.phase
    case Lobby =>
      && EmptyHands(s.players) && s.table == [] && s.discardPile == [] && TotalsWithinLimit(s.players)
      && !s.turn.mustUseDiscardDraw
    case InProgress =>
      && HasCurrent(s) && TwoActive(s.players) && HandSizes(s) && TotalsWithinLimit(s.players)
      && Held(s) <= INITIAL_HAND_SIZE * |s.players| + Drawn(s)
    case RoundOver => TwoActive(s.players) && TotalsWithinLimit(s.players) && !s.turn.mustUseDiscardDraw
    case GameOver => !s.turn.mustUseDiscardDraw
  }

  ghost predicate Inv(s: State) {
    Conserved(s) && Seated(s) && InPhase(s) && PenaltySum(s.players) == InflictedSum(s.players)
  }

  /** One operation keeps the invariant, and the promise behind the obligation if it held. */
  ghost predicate Keeps(s: State, t: State) {
    Inv(t) && (Obligation(s) ==> Obligation(t))
  }

  // ---------------------------------------------------------------- small steps

  lemma {:induction false} SameHands(players: seq<Player>, after: seq<Player>)
    requires |after| == |players| && forall i :: 0 <= i < |players| ==> after[i].hand == players[i].hand
    ensures D.HandCards(after) == D.HandCards(players)
  {
    if players != [] {
      SameHands(players[..|players| - 1], after[..|players| - 1]);
    }
  }

  lemma {:induction false} NoHands(players: seq<Player>)
    requires EmptyHands(players)
    ensures D.HandCards(players) == multiset{}
  {
    if players != [] {
      NoHands(players[..|players| - 1]);
    }
  }

  lemma SamePiles(s: State)
    ensures multiset(Recycled(s).drawPile) + multiset(Recycled(s).discardPile) ==
            multiset(s.drawPile) + multiset(s.discardPile)
  {
    if Recycled(s) != s {
      ReversedKeepsCards(s.discardPile[1..]);
      assert s.discardPile == s.discardPile[..1] + s.discardPile[1..];
    }
  }

  lemma RecycledKeeps(s: State)
    ensures AllCards(Recycled(s)) == AllCards(s)
    ensures Recycled(s) == s.(drawPile := Recycled(s).drawPile, discardPile := Recycled(s).discardPile)
    ensures |s.drawPile| + |s.discardPile| >= 2 ==> Recycled(s).drawPile != []
  {
    SamePiles(s);
  }

  /** With at most four players the two piles always hold at least 59 cards. */
  lemma PilesHoldTheRest(s: State)
    requires Conserved(s) && |s.players| <= 4 && Held(s) <= INITIAL_HAND_SIZE * |s.players| + Drawn(s)
    ensures |s.drawPile| + |s.discardPile| >= 59
  {
    DoubleDeckCounts(Joker);
    assert |AllCards(s)| == |s.drawPile| + |s.discardPile| + Held(s);
  }

  lemma NewHand(s: State, i: int, hand: seq<Card>)
    requires 0 <= i < |s.players|
    ensures multiset(s.players[i].hand) <= D.HandCards(s.players)
    ensures D.HandCards(WithHand(s, i, hand).players) ==
            D.HandCards(s.players) - multiset(s.players[i].hand) + multiset(hand)
  {
    D.HandCardsUpdate(s.players, i, s.players[i].(hand := hand));
  }

  lemma OneMoreCard(m: multiset<Card>, hand: seq<Card>, c: Card)
    requires multiset(hand) <= m
    ensures m - multiset(hand) + multiset(hand + [c]) == m + multiset{c}
    ensures |m - multiset(hand) + multiset(hand + [c])| == |m| + 1
  {
    var x := multiset(hand);
    assert multiset(hand + [c]) == x + multiset{c};
    assert m - x + x == m;
    assert m - x + (x + multiset{c}) == m - x + x + multiset{c};
  }

  lemma SameSums(s: State, i: int, hand: seq<Card>)
    requires 0 <= i < |s.players|
    ensures PenaltySum(WithHand(s, i, hand).players) == PenaltySum(s.players)
    ensures InflictedSum(WithHand(s, i, hand).players) == InflictedSum(s.players)
  {
    PenaltySumUpdate(s.players, i, s.players[i].(hand := hand));
  }

  lemma KeepsTwoActive(players: seq<Player>, after: seq<Player>)
    requires |after| == |players| && forall i :: 0 <= i < |players| ==> after[i].forfeited == players[i].forfeited
    requires TwoActive(players)
    ensures TwoActive(after)
  {
    var i, j :| 0 <= i < j < |players| && !players[i].forfeited && !players[j].forfeited;
    assert !after[i].forfeited && !after[j].forfeited;
  }

  predicate SameIds(players: seq<Player>, after: seq<Player>) {
    |after| == |players| && forall i :: 0 <= i < |players| ==> after[i].id == players[i].id
  }

  /** Operations that neither add nor rename players leave the seating in order. */
  lemma StillSeated(s: State, t: State)
    requires Seated(s) && SameIds(s.players, t.players)
    requires t.maxPlayers == s.maxPlayers && t.round >= 1 && t.turn.number >= 1 && t.mode != UnknownMode
    requires t.phase == Lobby || |s.players| > 0
    requires t.turn.playerIndex == s.turn.playerIndex || 0 <= t.turn.playerIndex < |s.players|
    requires t.dealerIndex == s.dealerIndex || 0 <= t.dealerIndex < |s.players|
    requires t.roundWinnerIndex == s.roundWinnerIndex || t.roundWinnerIndex == -1 ||
             0 <= t.roundWinnerIndex < |s.players|
    ensures Seated(t)
  {
  }

  lemma SeatedBasics(s: State)
    requires Seated(s)
    ensures s.round >= 1 && s.turn.number >= 1 && s.mode != UnknownMode && (s.phase == Lobby || |s.players| > 0)
    ensures 0 <= s.turn.playerIndex && (|s.players| > 0 ==> s.turn.playerIndex < |s.players|)
  {
  }

  // ---------------------------------------------------------------- drawing

  lemma FirstCard(pile: seq<Card>)
    requires pile != []
    ensures multiset(pile) == multiset{pile[0]} + multiset(pile[1..])
  {
    assert pile == [pile[0]] + pile[1..];
  }

  lemma SameTotals(players: seq<Player>, after: seq<Player>)
    requires |after| == |players| && TotalsWithinLimit(players)
    requires forall i :: 0 <= i < |players| ==>
               after[i].totalPoints == players[i].totalPoints && (players[i].forfeited ==> after[i].forfeited)
    ensures TotalsWithinLimit(after)
  {
  }

  /** `t` is `s` after the current player has taken card `c` from one of the piles. */
  ghost predicate TakesCard(s: State, t: State, c: Card) {
    && s.phase == InProgress && HasCurrent(s) && !s.turn.hasDrawn
    && t == WithHand(s, s.turn.playerIndex, s.players[s.turn.playerIndex].hand + [c])
            .(drawPile := t.drawPile, discardPile := t.discardPile, turn := t.turn)
    && t.turn.number == s.turn.number && t.turn.playerIndex == s.turn.playerIndex && t.turn.hasDrawn
    && multiset(s.drawPile) + multiset(s.discardPile) == multiset(t.drawPile) + multiset(t.discardPile) + multiset{c}
  }

  lemma TakenHands(s: State, t: State, c: Card)
    requires TakesCard(s, t, c)
    ensures D.HandCards(t.players) == D.HandCards(s.players) + multiset{c}
  {
    var i := s.turn.playerIndex;
    NewHand(s, i, s.players[i].hand + [c]);
    OneMoreCard(D.HandCards(s.players), s.players[i].hand, c);
  }

  lemma TakenConserves(s: State, t: State, c: Card)
    requires TakesCard(s, t, c) && Conserved(s)
    ensures Conserved(t) && Held(t) == Held(s) + 1
  {
    TakenHands(s, t, c);
    hide CompOk, D.HandCards, TableCards, WithHand;
    var piles, h, rest := multiset(t.drawPile) + multiset(t.discardPile), D.HandCards(s.players), TableCards(s.table);
    assert AllCards(t) == piles + (h + multiset{c}) + rest;
    assert AllCards(s) == piles + multiset{c} + h + rest;
    assert piles + (h + multiset{c}) + rest == piles + multiset{c} + h + rest;
  }

  lemma TakenHandSizes(s: State, t: State, c: Card)
    requires TakesCard(s, t, c) && HandSizes(s)
    ensures HandSizes(t)
  {
  }

  lemma TakenKeeps(s: State, t: State, c: Card)
    requires TakesCard(s, t, c) && Inv(s)
    ensures Inv(t)
  {
    hide Conserved, Held, HandSizes, TotalsWithinLimit, TwoActive, PenaltySum, InflictedSum;
    var i := s.turn.playerIndex;
    StillSeated(s, t);
    hide Seated;
    TakenConserves(s, t, c);
    TakenHandSizes(s, t, c);
    SameSums(s, i, s.players[i].hand + [c]);
    KeepsTwoActive(s.players, t.players);
    SameTotals(s.players, t.players);
  }

  /** Drawing always succeeds when a draw is due. */
  lemma DrawFromDeckKeeps(s: State)
    requires Inv(s)
    ensures Keeps(s, DrawFromDeck(s).state)
    ensures s.phase == InProgress && !s.turn.hasDrawn ==> DrawFromDeck(s).error.None?
  {
    if s.phase == InProgress && !s.turn.hasDrawn {
      var r := Recycled(s);
      RecycledKeeps(s);
      PilesHoldTheRest(s);
      FirstCard(r.drawPile);
      hide Recycled, Conserved, Held, Seated, TotalsWithinLimit, HandSizes, TwoActive, CanUse;
      SamePiles(s);
      TakenKeeps(s, DrawFromDeck(s).state, r.drawPile[0]);
    }
  }

  /** The hand with the top discard at its end. */
  function Tempted(s: State): Player
    requires HasCurrent(s) && s.discardPile != []
  {
    var p := s.players[s.turn.playerIndex];
    p.(hand := p.hand + [s.discardPile[0]])
  }

  lemma DiscardTaken(s: State)
    requires s.phase == InProgress && HasCurrent(s) && !s.turn.hasDrawn && s.discardPile != []
    requires CanUse(Tempted(s), s.table, s.discardPile[0])
    ensures var t := DrawFromDiscard(s, true).state; TakesCard(s, t, s.discardPile[0]) && Obligation(t)
  {
    hide CanUse;
    FirstCard(s.discardPile);
    assert DrawFromDiscard(s, true).state.players[s.turn.playerIndex] == Tempted(s);
  }

  lemma DrawFromDiscardKeeps(s: State, accepted: bool)
    requires Inv(s) && (accepted ==> s.discardPile != [])
    requires accepted && s.phase == InProgress && !s.turn.hasDrawn ==> CanUse(Tempted(s), s.table, s.discardPile[0])
    ensures Keeps(s, DrawFromDiscard(s, accepted).state)
  {
    if s.phase == InProgress && !s.turn.hasDrawn && accepted {
      DiscardTaken(s);
      hide Conserved, Held, Seated, TotalsWithinLimit, HandSizes, TwoActive, CanUse, TakesCard, Obligation;
      TakenKeeps(s, DrawFromDiscard(s, accepted).state, s.discardPile[0]);
    }
  }

  // ---------------------------------------------------------------- playing on the table

  lemma {:induction false} ReplacementCount(reclaims: seq<JokerReclaim>)
    ensures |ReplacementCards(reclaims)| == |reclaims|
  {
    if reclaims != [] {
      ReplacementCount(reclaims[..|reclaims| - 1]);
    }
  }

  /** Each reclaimed joker costs its replacement, so a play never enlarges the hand. */
  lemma PlayNeverEnlargesHand(s: TableState, comps: seq<Comp>, additions: seq<Addition>, reclaims: seq<JokerReclaim>)
    requires AllOk(s.table) && AllOk(comps)
    ensures var r := ApplyTablePlay(s, comps, additions, reclaims); r.Success? ==> |r.value.hand| <= |s.hand|
  {
    hide OnTable, CompOk, RemoveEach;
    var r := ApplyTablePlay(s, comps, additions, reclaims);
    if r.Success? {
      var o := OnTable(s.table, comps, additions, reclaims).value;
      OnTableKeeps(s.table, comps, additions, reclaims);
      PlayTakesNamed(s.table, comps, additions, reclaims);
      ReplacementCount(reclaims);
      RemoveEachSubtracts(s.hand + o.reclaimed, o.played);
      NamedSize(comps, additions, reclaims);
      assert |multiset(o.played)| == |o.played|;
    }
  }

  lemma NamedSize(comps: seq<Comp>, additions: seq<Addition>, reclaims: seq<JokerReclaim>)
    ensures |Named(comps, additions, reclaims)| >= |ReplacementCards(reclaims)|
  {
    hide TableCards, AdditionCards, ReplacementCards;
  }

  lemma PlayedHands(s: State, next: TableState)
    requires HasCurrent(s)
    requires var p := s.players[s.turn.playerIndex];
             multiset(next.hand) + TableCards(next.table) == multiset(p.hand) + TableCards(s.table)
    ensures var t := AfterPlay(s, next); AllCards(t) == AllCards(s) && Held(t) == Held(s)
  {
    var i := s.turn.playerIndex;
    var t := AfterPlay(s, next);
    D.HandCardsUpdate(s.players, i, t.players[i]);
    Swap(D.HandCards(s.players), multiset(s.players[i].hand), multiset(next.hand), TableCards(s.table),
         TableCards(next.table));
    hide TableCards, D.HandCards;
    var piles := multiset(s.drawPile) + multiset(s.discardPile);
    assert AllCards(t) == piles + (D.HandCards(t.players) + TableCards(t.table));
    assert AllCards(s) == piles + (D.HandCards(s.players) + TableCards(s.table));
    assert Held(t) == |D.HandCards(t.players) + TableCards(t.table)|;
  }

  lemma Swap(m: multiset<Card>, h: multiset<Card>, h': multiset<Card>, t: multiset<Card>, t': multiset<Card>)
    requires h <= m && h' + t' == h + t
    ensures m - h + h' + t' == m + t
  {
    assert m - h + (h + t) == m + t;
    assert m - h + h' + t' == m - h + (h' + t');
  }

  /** What a successful table play leaves in the current hand and on the table. */
  ghost predicate GoodPlay(s: State, next: TableState)
    requires HasCurrent(s)
  {
    var p := s.players[s.turn.playerIndex];
    && multiset(next.hand) + TableCards(next.table) == multiset(p.hand) + TableCards(s.table)
    && AllOk(next.table) && 1 <= |next.hand| <= |p.hand|
  }

  lemma PlayedHandSizes(s: State, next: TableState)
    requires HasCurrent(s) && GoodPlay(s, next) && HandSizes(s)
    ensures HandSizes(AfterPlay(s, next))
  {
    hide TableCards, AllOk, Opened;
  }

  lemma PlayedPlayers(s: State, next: TableState)
    requires HasCurrent(s)
    ensures var after := AfterPlay(s, next).players;
            |after| == |s.players| && forall i :: 0 <= i < |after| ==>
              after[i].id == s.players[i].id && after[i].forfeited == s.players[i].forfeited &&
              after[i].totalPoints == s.players[i].totalPoints
    ensures PenaltySum(AfterPlay(s, next).players) == PenaltySum(s.players)
    ensures InflictedSum(AfterPlay(s, next).players) == InflictedSum(s.players)
  {
    PenaltySumUpdate(s.players, s.turn.playerIndex, AfterPlay(s, next).players[s.turn.playerIndex]);
  }

  lemma PlayedKeeps(s: State, next: TableState)
    requires Inv(s) && s.phase == InProgress && GoodPlay(s, next)
    ensures Inv(AfterPlay(s, next))
  {
    hide DistinctIds, TotalsWithinLimit, TwoActive, HandSizes, CanUse, Held, AllCards, AllOk, PenaltySum,
         InflictedSum, Opened, TableCards;
    PlayedHands(s, next);
    PlayedHandSizes(s, next);
    PlayedPlayers(s, next);
    KeepsTwoActive(s.players, AfterPlay(s, next).players);
    SameTotals(s.players, AfterPlay(s, next).players);
    StillSeated(s, AfterPlay(s, next));
  }

  lemma SuccessKeeps(s: State, comps: seq<Comp>, additions: seq<Addition>, reclaims: seq<JokerReclaim>)
    requires Inv(s) && AllOk(comps) && s.phase == InProgress && HasCurrent(s)
    requires var p := s.players[s.turn.playerIndex];
             ApplyTablePlay(TableState(p.hand, s.table, p.hasOpened), comps, additions, reclaims).Success?
    ensures var p := s.players[s.turn.playerIndex];
            var r := ApplyTablePlay(TableState(p.hand, s.table, p.hasOpened), comps, additions, reclaims);
            Keeps(s, AfterPlay(s, r.value))
  {
    hide ApplyTablePlay, Seated, InPhase, AllOk, TableCards, Opened;
    var p := s.players[s.turn.playerIndex];
    var play := TableState(p.hand, s.table, p.hasOpened);
    PlayConservesCards(play, comps, additions, reclaims);
    PlayNeverEnlargesHand(play, comps, additions, reclaims);
    PlayedKeeps(s, ApplyTablePlay(play, comps, additions, reclaims).value);
  }

  lemma Refused(s: State)
    requires Inv(s)
    ensures Keeps(s, s)
  {
    hide Inv;
  }

  lemma PlayTableKeeps(s: State, comps: seq<Comp>, additions: seq<Addition>, reclaims: seq<JokerReclaim>)
    requires Inv(s) && AllOk(comps)
    ensures Keeps(s, PlayTable(s, comps, additions, reclaims).state)
  {
    hide ApplyTablePlay, UsesCard, Inv, Keeps, AfterPlay, AllOk;
    if PlayTable(s, comps, additions, reclaims).error.None? {
      SuccessKeeps(s, comps, additions, reclaims);
    } else {
      Refused(s);
    }
  }
}
