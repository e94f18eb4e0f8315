/** What the actions of a turn do to piles, hands, table and turn, in terms of the state before them. */
module TurnResults {
  import opened Cards
  import opened Compositions
  import opened CompositionObjects
  import opened Piles
  import opened TablePlay
  import opened PlayedCards
  import opened Rotation
  import opened SpecialHands
  import opened RoundScoring
  import opened GameModel
  import opened GameInvariants
  import opened PlayOutcomes
  import opened RoundResults

  /** The player to move may act and has or has not drawn. */
  predicate MayAct(s: State, drawn: bool) {
    && s.phase == InProgress && 0 <= s.turn.playerIndex < |s.players| && !s.players[s.turn.playerIndex].forfeited
    && s.turn.hasDrawn == drawn
  }

  /** Only the hand of the player to move, the piles, the table and the turn differ, and in the turn neither the
      number nor the player. */
  predicate SameTurnOf(s: State, t: State) {
    && |t.players| == |s.players| && 0 <= s.turn.playerIndex < |s.players|
    && t == s.(players := t.players, table := t.table, drawPile := t.drawPile, discardPile := t.discardPile,
               turn := t.turn)
    && t.turn.number == s.turn.number && t.turn.playerIndex == s.turn.playerIndex
    && forall i :: 0 <= i < |s.players| && i != s.turn.playerIndex ==> t.players[i] == s.players[i]
  }

  function HandOf(s: State): seq<Card>
    requires 0 <= s.turn.playerIndex < |s.players|
  {
    s.players[s.turn.playerIndex].hand
  }

  // ---------------------------------------------------------------- drawing

  /** A draw succeeds exactly if it is due and a card can be had without the top discard. */
  lemma DrawIff(s: State)
    ensures DrawFromDeck(s).error.None? <==> MayAct(s, false) && (s.drawPile != [] || |s.discardPile| >= 2)
  {
  }

  /** The top card of the draw pile comes to the hand. If the pile is empty it is the bottom card of the discards;
      the top discard stays, the others are the draw pile now, turned over. */
  lemma DrawTakes(s: State)
    requires DrawFromDeck(s).error.None?
    ensures var t := DrawFromDeck(s).state; var n := |s.discardPile|;
            && SameTurnOf(s, t) && t.table == s.table && t.turn.hasDrawn && !t.turn.mustUseDiscardDraw
            && t.turn.discardDrawCard == None
            && t.players[s.turn.playerIndex] == s.players[s.turn.playerIndex].(hand := HandOf(t))
            && if s.drawPile != [] then
                 HandOf(t) == HandOf(s) + [s.drawPile[0]] && t.drawPile == s.drawPile[1..] &&
                 t.discardPile == s.discardPile
               else
                 && HandOf(t) == HandOf(s) + [s.discardPile[n - 1]] && t.discardPile == [s.discardPile[0]]
                 && |t.drawPile| == n - 2 && forall k :: 0 <= k < n - 2 ==> t.drawPile[k] == s.discardPile[n - 2 - k]
  {
  }

  /** The top discard comes to the hand and must be used. */
  lemma TakeTakes(s: State)
    requires s.discardPile != [] && DrawFromDiscard(s, true).error.None?
    ensures var t := DrawFromDiscard(s, true).state;
            && MayAct(s, false) && SameTurnOf(s, t) && t.table == s.table && t.drawPile == s.drawPile
            && t.players[s.turn.playerIndex] == s.players[s.turn.playerIndex].(hand := HandOf(t))
            && HandOf(t) == HandOf(s) + [s.discardPile[0]] && t.discardPile == s.discardPile[1..]
            && t.turn.hasDrawn && t.turn.mustUseDiscardDraw && t.turn.discardDrawCard == Some(s.discardPile[0])
  {
  }

  // ---------------------------------------------------------------- playing

  /** A table play succeeds exactly if it is due, not empty, the executor takes it, and it names the discard that
      must be used. */
  lemma PlayIff(s: State, comps: seq<Comp>, additions: seq<Addition>, reclaims: seq<JokerReclaim>)
    ensures PlayTable(s, comps, additions, reclaims).error.None? <==>
              MayAct(s, true) && (comps != [] || additions != [] || reclaims != []) &&
              (var p := s.players[s.turn.playerIndex];
               ApplyTablePlay(TableState(p.hand, s.table, p.hasOpened), comps, additions, reclaims).Success?) &&
              (s.turn.mustUseDiscardDraw ==>
                 s.turn.discardDrawCard.Some? && s.turn.discardDrawCard.value in Named(comps, additions, reclaims))
  {
    hide ApplyTablePlay, UsesCard, Named;
    if s.turn.discardDrawCard.Some? {
      UsesCardIff(comps, additions, reclaims, s.turn.discardDrawCard.value);
    }
  }

  /** The player has opened, counted once a round with the turn it took, and owes no discard; piles stay. */
  lemma PlayOpens(s: State, comps: seq<Comp>, additions: seq<Addition>, reclaims: seq<JokerReclaim>)
    requires AllOk(s.table) && AllOk(comps) && PlayTable(s, comps, additions, reclaims).error.None?
    ensures var t := PlayTable(s, comps, additions, reclaims).state;
            && SameTurnOf(s, t) && t.drawPile == s.drawPile && t.discardPile == s.discardPile
            && t.turn == s.turn.(mustUseDiscardDraw := false)
            && var p, q := s.players[s.turn.playerIndex], t.players[s.turn.playerIndex];
               && q == p.(hand := q.hand, hasOpened := true, statistics := q.statistics)
               && var a, b := p.statistics, q.statistics;
                  if p.hasOpened then b == a
                  else
                    b == a.(roundsOpened := a.roundsOpened + 1, fastestOpeningTurn := b.fastestOpeningTurn) &&
                    (b.fastestOpeningTurn == s.turn.number || b.fastestOpeningTurn == a.fastestOpeningTurn != 0) &&
                    b.fastestOpeningTurn <= s.turn.number &&
                    (a.fastestOpeningTurn != 0 ==> b.fastestOpeningTurn <= a.fastestOpeningTurn)
  {
    hide ApplyTablePlay, UsesCard;
    var p := s.players[s.turn.playerIndex];
    PlayConservesCards(TableState(p.hand, s.table, p.hasOpened), comps, additions, reclaims);
  }

  // ---------------------------------------------------------------- discarding

  /** The k-th card of the hand is the one asked for: the expected card if one is named, and then the one at the
      index if it is there, else the first; without an expected card the one at the index. */
  predicate AskedFor(hand: seq<Card>, index: int, expected: Option<Card>, k: int) {
    && 0 <= k < |hand|
    && match expected
       case None => k == index
       case Some(c) =>
         hand[k] == c && (0 <= index < |hand| && hand[index] == c ==> k == index) &&
         (!(0 <= index < |hand| && hand[index] == c) ==> c !in hand[..k])
  }

  lemma MatchIsAskedFor(hand: seq<Card>, index: int, expected: Option<Card>)
    ensures var k := MatchIndex(hand, index, expected);
            if expected.Some? && expected.value !in hand then k == -1
            else if expected.None? then k == index
            else AskedFor(hand, index, expected, k)
  {
  }

  /** A discard succeeds exactly if it is due, no discard is owed, and the card asked for is in hand. */
  lemma DiscardIff(s: State, index: int, expected: Option<Card>)
    ensures Discard(s, index, expected).error.None? <==>
              MayAct(s, true) && !s.turn.mustUseDiscardDraw && exists k :: AskedFor(HandOf(s), index, expected, k)
  {
    hide FinishRound, AdvanceTurn, RemoveCompleted, WinsRound, WithoutAt, MatchIndex;
    if MayAct(s, true) {
      MatchIsAskedFor(HandOf(s), index, expected);
      var k := MatchIndex(HandOf(s), index, expected);
      if 0 <= k < |HandOf(s)| {
        assert AskedFor(HandOf(s), index, expected, k);
      }
      if j :| AskedFor(HandOf(s), index, expected, j) {
        assert expected.Some? ==> expected.value in HandOf(s);
        assert 0 <= k < |HandOf(s)|;
      }
    }
  }

  /** The compositions that stay, and a pile on which the cards of the others lie. */
  ghost predicate Cleared(table: seq<Comp>, pile: seq<Card>, rest: seq<Comp>, after: seq<Card>) {
    && (forall c :: multiset(rest)[c] == if Complete(c.variant, c.cards) then 0 else multiset(table)[c])
    && TableCards(rest) + multiset(after) == TableCards(table) + multiset(pile)
    && |after| >= |pile| && after[|after| - |pile|..] == pile
  }

  lemma {:induction false} CleanupClears(table: seq<Comp>, pile: seq<Card>)
    ensures var r := RemoveCompleted(table, pile); Cleared(table, pile, r.table, r.discardPile)
  {
    hide Complete, Cleared;
    if table != [] {
      var k := |table| - 1;
      var r, c := RemoveCompleted(table[..k], pile), table[k];
      CleanupClears(table[..k], pile);
      assert table == table[..k] + [c];
      if Complete(c.variant, c.cards) {
        CompleteGoes(table[..k], pile, r.table, r.discardPile, c);
      } else {
        OtherStays(table[..k], pile, r.table, r.discardPile, c);
      }
    } else {
      NothingToClear(pile);
    }
  }

  lemma NothingToClear(pile: seq<Card>)
    ensures Cleared([], pile, [], pile)
  {
  }

  lemma OneMoreOnTable(table: seq<Comp>, c: Comp)
    ensures TableCards(table + [c]) == TableCards(table) + multiset(c.cards)
  {
    assert (table + [c])[..|table + [c]| - 1] == table;
  }

  lemma CompleteGoes(table: seq<Comp>, pile: seq<Card>, rest: seq<Comp>, after: seq<Card>, c: Comp)
    requires Cleared(table, pile, rest, after) && Complete(c.variant, c.cards)
    ensures Cleared(table + [c], pile, rest, c.cards + after)
  {
    hide Complete, TableCards;
    OneMoreOnTable(table, c);
    var more := c.cards + after;
    assert more[|more| - |pile|..] == after[|after| - |pile|..];
    assert multiset(more) == multiset(c.cards) + multiset(after);
    var t, u := TableCards(rest) + multiset(after), TableCards(table) + multiset(pile);
    assert TableCards(rest) + multiset(more) == t + multiset(c.cards);
    assert TableCards(table + [c]) + multiset(pile) == u + multiset(c.cards);
  }

  lemma OtherStays(table: seq<Comp>, pile: seq<Card>, rest: seq<Comp>, after: seq<Card>, c: Comp)
    requires Cleared(table, pile, rest, after) && !Complete(c.variant, c.cards)
    ensures Cleared(table + [c], pile, rest + [c], after)
  {
    hide Complete, TableCards;
    OneMoreOnTable(table, c);
    OneMoreOnTable(rest, c);
    var t, u := TableCards(rest) + multiset(after), TableCards(table) + multiset(pile);
    assert TableCards(rest + [c]) + multiset(after) == t + multiset(c.cards);
    assert TableCards(table + [c]) + multiset(pile) == u + multiset(c.cards);
  }

  // ---------------------------------------------------------------- the end of a turn

  /** The hand wins: it is empty, or twelve cards of one suit, or six pairs. */
  ghost predicate Winning(hand: seq<Card>) {
    hand == [] || OneSuit(hand) || SixPairs(hand)
  }

  /** A successful discard takes the card asked for out of the hand and puts it on top; a winning hand ends the
      round for the player who discarded, otherwise the next active player is to move and has not drawn. */
  lemma DiscardEndsTurn(s: State, index: int, expected: Option<Card>) returns (k: int)
    requires Discard(s, index, expected).error.None?
    ensures var t, i := Discard(s, index, expected).state, s.turn.playerIndex;
            MayAct(s, true) && AskedFor(HandOf(s), index, expected, k) && |t.players| == |s.players| &&
            var hand := HandOf(s)[..k] + HandOf(s)[k + 1..];
            && t.players[i].hand == hand && t.discardPile != [] && t.discardPile[0] == HandOf(s)[k]
            && (t.phase != InProgress <==> Winning(hand)) && t.round == s.round
            && if Winning(hand) then t.roundWinnerIndex == i
               else
                 && IsNext(ActiveFlags(s.players), i, t.turn.playerIndex)
                 && t.turn == Turn(s.turn.number + 1, t.turn.playerIndex, false, false, None)
                 && forall j :: 0 <= j < |s.players| ==>
                      t.players[j] == s.players[j].(hand := if j == i then hand else s.players[j].hand)
  {
    hide FinishRound, AdvanceTurn, RemoveCompleted, MatchIndex, OneSuit, SixPairs;
    var i := s.turn.playerIndex;
    k := MatchIndex(HandOf(s), index, expected);
    MatchIsAskedFor(HandOf(s), index, expected);
    var d := Discarded(s, i, k);
    if WinsRound(d.players[i].hand) {
      WonRound(d, i);
    } else {
      TurnPassed(d);
    }
  }

  lemma WonRound(d: State, i: int)
    requires 0 <= i < |d.players|
    ensures var t := FinishRound(d, i);
            |t.players| == |d.players| && t.players[i].hand == d.players[i].hand && t.discardPile == d.discardPile &&
            t.phase != InProgress && t.roundWinnerIndex == i && t.round == d.round
  {
    hide ScoredPlayers, Adjusted, OthersOverLimit;
    RoundEndsGameIff(d, i);
    ScoredSums(d, i, i);
    AdjustedHands(ScoredPlayers(d.players, d.round, i));
  }

  lemma AdjustedHands(players: seq<Player>)
    ensures forall i :: 0 <= i < |players| ==> Adjusted(players)[i].hand == players[i].hand
  {
    hide HighestRemaining;
  }

  lemma TurnPassed(d: State)
    requires 0 <= d.turn.playerIndex < |d.players| && d.discardPile != []
    ensures var t := AdvanceTurn(d);
            && t.players == d.players && t.table == d.table && t.phase == d.phase && t.round == d.round
            && t.discardPile != [] && t.discardPile[0] == d.discardPile[0]
            && IsNext(ActiveFlags(d.players), d.turn.playerIndex, t.turn.playerIndex)
            && t.turn == Turn(d.turn.number + 1, t.turn.playerIndex, false, false, None)
            && (d.drawPile != [] || |d.discardPile| == 1 ==> t.drawPile == d.drawPile && t.discardPile == d.discardPile)
  {
    hide NextOf;
  }

  /** Complete compositions leave the table; their cards lie between the discard and the old discards. */
  lemma DiscardClears(s: State, index: int, expected: Option<Card>)
    requires Discard(s, index, expected).error.None?
    ensures var t := Discard(s, index, expected).state;
            exists cleared: seq<Card>, card ::
              Cleared(s.table, s.discardPile, t.table, cleared) &&
              (s.drawPile != [] || t.phase != InProgress ==>
                 t.drawPile == s.drawPile && t.discardPile == [card] + cleared)
  {
    hide FinishRound, AdvanceTurn, RemoveCompleted, MatchIndex, OneSuit, SixPairs, Cleared;
    var i := s.turn.playerIndex;
    var k := MatchIndex(HandOf(s), index, expected);
    var d := Discarded(s, i, k);
    var r := RemoveCompleted(s.table, s.discardPile);
    CleanupClears(s.table, s.discardPile);
    assert d.table == r.table && d.discardPile == [HandOf(s)[k]] + r.discardPile;
    if WinsRound(d.players[i].hand) {
      RoundEndsGameIff(d, i);
    } else {
      TurnPassed(d);
    }
  }

  // ---------------------------------------------------------------- refusals

  /** A refused action names the first thing that stands in its way, and leaves the game as it is. */
  lemma WhyRefused(s: State, accepted: bool, index: int, expected: Option<Card>)
    requires accepted ==> s.discardPile != []
    ensures var draw, take, discard := DrawFromDeck(s), DrawFromDiscard(s, accepted), Discard(s, index, expected);
            && (s.phase != InProgress ==>
                  draw.error == take.error == discard.error == Some(GameNotInProgress))
            && (s.phase == InProgress && MayAct(s, true) ==> draw.error == take.error == Some(PlayerAlreadyDrew))
            && (MayAct(s, false) ==> discard.error == Some(PlayerHasntDrawn))
            && (MayAct(s, false) && !accepted ==> take.error == Some(CannotTakeDiscardCard))
            && (MayAct(s, false) && draw.error.Some? ==> draw.error == Some(NotEnoughCardsInDrawPile))
            && (MayAct(s, true) && s.turn.mustUseDiscardDraw ==> discard.error == Some(MustUseDrawnDiscardCard))
            && (MayAct(s, true) && !s.turn.mustUseDiscardDraw && discard.error.Some? ==>
                  discard.error == Some(RemovingCard))
            && (take.error.Some? ==> take.state == s) && (discard.error.Some? ==> discard.state == s)
            && (draw.error.Some? ==> draw.state == s)
  {
    hide FinishRound, AdvanceTurn, RemoveCompleted, WinsRound, MatchIndex;
  }
}
