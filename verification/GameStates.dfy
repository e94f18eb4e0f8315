/** The mutable game of state.go; each method is proved to do what GameModel says. */
module GameStates {
  import opened Cards
  import opened Compositions
  import opened CompositionObjects
  import opened Piles
  import opened TablePlay
  import opened TableExecutor
  import opened PlayedCards
  import opened SearchPlays
  import opened DiscardSearch
  import opened DiscardComplete
  import opened OpeningSearch
  import opened Rotation
  import opened SpecialHands
  import opened RoundScoring
  import opened GameModel
  import opened GameInvariants
  import opened GameRounds
  import opened Persistence
  import opened GameRuns
  import opened GameObjects
  import D = Dealing

  class GameState {
    var players: seq<SeatedPlayer>
    var activeCompositions: seq<Composition>
    var drawPile: CardPile
    var discardPile: CardPile
    var maxPlayers: int
    var phase: Phase
    var round: int
    var dealerIndex: int
    var turn: Turn
    var roundWinnerIndex: int
    var gameMode: Mode
    ghost var people: set<object>
    ghost var laid: set<object>

    /** Players and hands are among `people`, compositions and their maps among `laid`, and nothing is shared. */
    ghost predicate Valid()
      reads this, people, laid
    {
      && SeatedIn(players, people) && LaidIn(activeCompositions, laid)
      && people !! laid && this !in people + laid
      && drawPile != discardPile && drawPile !in people + laid && discardPile !in people + laid
    }

    /** Every object the game is made of. */
    ghost function Repr(): set<object>
      reads this
    {
      {this, drawPile, discardPile} + people + laid
    }

    function Players(): (r: seq<Player>)
      requires Valid()
      reads this, people, laid
      ensures |r| == |players| && forall i :: 0 <= i < |r| ==> r[i] == players[i].Value()
    {
      PlayerValues(players, people)
    }

    function LaidComps(): (r: seq<Comp>)
      requires Valid()
      reads this, people, laid
      ensures |r| == |activeCompositions| && forall i :: 0 <= i < |r| ==> r[i] == activeCompositions[i].Value()
    {
      CompValues(activeCompositions, laid)
    }

    function Value(): (s: State)
      requires Valid()
      reads this, drawPile, discardPile, people, laid
    {
      State(Players(), LaidComps(), drawPile.cards, discardPile.cards, maxPlayers, phase, round, dealerIndex, turn,
            roundWinnerIndex, gameMode)
    }

    lemma Separate()
      requires Valid()
      ensures this !in people && drawPile !in people && discardPile !in people && drawPile != discardPile
      ensures |Players()| == |players| && forall i :: 0 <= i < |players| ==> Players()[i] == players[i].Value()
    {
      hide SeatedIn, LaidIn, PlayerValues, CompValues;
    }

    lemma Shown()
      requires Valid()
      ensures Value().players == Players() && Value().drawPile == drawPile.cards && Value().turn == turn
    {
      hide SeatedIn, LaidIn, PlayerValues, CompValues;
    }

    constructor (deck: seq<Card>)
      requires multiset(deck) == DoubleDeck()
      ensures Valid() && fresh(Repr()) && Value() == NewGame(deck)
    {
      players, activeCompositions, maxPlayers := [], [], 4;
      phase, round, dealerIndex, roundWinnerIndex, gameMode := Lobby, 1, 0, -1, Full;
      turn := FIRST_TURN;
      drawPile := new CardPile(deck);
      discardPile := new CardPile([]);
      people, laid := {}, {};
    }

    // -------------------------------------------------------------- copies

    /** A game of given parts with the remaining fields of another. */
    constructor Assembled(other: GameState, players: seq<SeatedPlayer>, ghost people: set<object>,
                          comps: seq<Composition>,
                          ghost laid: set<object>, drawPile: CardPile, discardPile: CardPile)
      requires SeatedIn(players, people) && LaidIn(comps, laid) && people !! laid
      requires drawPile != discardPile && drawPile !in people + laid && discardPile !in people + laid
      ensures Valid() && this.people == people && this.laid == laid && this.drawPile == drawPile &&
              this.discardPile == discardPile
      ensures this.players == players && activeCompositions == comps && maxPlayers == other.maxPlayers &&
              phase == other.phase
      ensures round == other.round && dealerIndex == other.dealerIndex && turn == other.turn
      ensures roundWinnerIndex == other.roundWinnerIndex && gameMode == other.gameMode
    {
      this.players, activeCompositions, maxPlayers, phase := players, comps, other.maxPlayers, other.phase;
      round, dealerIndex, turn, roundWinnerIndex := other.round, other.dealerIndex, other.turn, other.roundWinnerIndex;
      this.drawPile, this.discardPile, gameMode := drawPile, discardPile, other.gameMode;
      this.people, this.laid := people, laid;
    }

    /** A copy with the same value and no object in common. */
    method Clone() returns (copy: GameState)
      requires Valid()
      ensures copy.Valid() && fresh(copy.Repr()) && copy.Value() == Value()
    {
      hide SeatedIn, LaidIn, PlayerValues, CompValues;
      var playerCopies, compCopies;
      ghost var p, c;
      playerCopies, p := ClonePlayers(players, people);
      compCopies, c := CloneCompositions(activeCompositions, laid);
      var drawCopy := new CardPile(drawPile.cards);
      var discardCopy := new CardPile(discardPile.cards);
      copy := new GameState.Assembled(this, playerCopies, p, compCopies, c, drawCopy, discardCopy);
    }

    /** A game restored from a snapshot. */
    constructor Of(s: State)
      ensures Valid() && fresh(Repr()) && Value() == s
    {
      hide SeatedIn, LaidIn, PlayerValues, CompValues;
      maxPlayers, phase, round, dealerIndex := s.maxPlayers, s.phase, s.round, s.dealerIndex;
      roundWinnerIndex, gameMode, turn := s.roundWinnerIndex, s.mode, s.turn;
      drawPile := new CardPile(s.drawPile);
      discardPile := new CardPile(s.discardPile);
      var seated, comps;
      ghost var p, c;
      NothingLaidIn({});
      seated, p := SeatPlayers(s.players);
      comps, c := LayOut([], s.table, {});
      players, people, activeCompositions, laid := seated, p, comps, c;
    }

    /** Take over the objects of another game; the plain fields stay. */
    method TakeObjects(next: GameState)
      requires next.Valid() && this != next && this !in next.people && this !in next.laid
      modifies this`players, this`activeCompositions, this`drawPile, this`discardPile, this`people, this`laid
      ensures Valid() && players == next.players && activeCompositions == next.activeCompositions
      ensures drawPile == next.drawPile && discardPile == next.discardPile && people == next.people && laid == next.laid
      ensures Players() == old(next.Players()) && LaidComps() == old(next.LaidComps())
    {
      hide SeatedIn, LaidIn, PlayerValues, CompValues;
      players, activeCompositions, drawPile, discardPile :=
        next.players, next.activeCompositions, next.drawPile, next.discardPile;
      people, laid := next.people, next.laid;
    }

    method TakeFields(next: GameState)
      requires Valid()
      modifies this`maxPlayers, this`phase, this`round, this`dealerIndex,
               this`turn, this`roundWinnerIndex, this`gameMode
      ensures Valid() && maxPlayers == next.maxPlayers && phase == next.phase && round == next.round
      ensures dealerIndex == next.dealerIndex && turn == next.turn && roundWinnerIndex == next.roundWinnerIndex
      ensures gameMode == next.gameMode && Players() == old(Players()) && LaidComps() == old(LaidComps())
    {
      hide SeatedIn, LaidIn, PlayerValues, CompValues;
      maxPlayers, phase, round, dealerIndex := next.maxPlayers, next.phase, next.round, next.dealerIndex;
      turn, roundWinnerIndex, gameMode := next.turn, next.roundWinnerIndex, next.gameMode;
    }

    method Become(next: GameState)
      requires next.Valid() && this != next && this !in next.people && this !in next.laid
      modifies this
      ensures Valid() && Repr() <= {this} + old(next.Repr()) && Value() == old(next.Value())
    {
      hide Valid, SeatedIn, LaidIn, PlayerValues, CompValues;
      TakeObjects(next);
      TakeFields(next);
    }

    // -------------------------------------------------------------- one player, or the table

    /** One player changes in place. */
    method Store(i: int, p: Player)
      requires Valid() && 0 <= i < |players|
      modifies people
      ensures Valid() && Players() == old(Players())[i := p]
      ensures Value() == old(Value()).(players := Players())
    {
      hide SeatedIn, LaidIn, PlayerValues, CompValues;
      StorePlayer(players, i, p, people);
    }

    /** One player's hand is replaced by an empty one. */
    method EmptyHand(i: int)
      requires Valid() && 0 <= i < |players|
      modifies this`people, people
      ensures Valid() && people >= old(people) && fresh(people - old(people))
      ensures Players() == old(Players())[i := old(Players())[i].(hand := [])]
      ensures Value() == old(Value()).(players := Players())
    {
      hide SeatedIn, LaidIn, PlayerValues, CompValues;
      people := NewHandFor(players, i, people);
    }

    method LayTable(table: seq<Comp>)
      requires Valid()
      modifies this`activeCompositions, this`laid
      ensures Valid() && laid >= old(laid) && fresh(laid - old(laid))
      ensures Value() == old(Value()).(table := table)
    {
      hide SeatedIn, LaidIn, PlayerValues, CompValues;
      activeCompositions, laid := LayOut(activeCompositions, table, laid);
    }

    method SetTurn(next: Turn)
      requires Valid()
      modifies this`turn
      ensures Valid() && Value() == old(Value()).(turn := next)
    {
      hide SeatedIn, LaidIn, PlayerValues, CompValues;
      turn := next;
    }

    method SetPhase(next: Phase)
      requires Valid()
      modifies this`phase
      ensures Valid() && Value() == old(Value()).(phase := next)
    {
      hide SeatedIn, LaidIn, PlayerValues, CompValues;
      phase := next;
    }

    /** The round has a winner, or none, and the turn is cleared. */
    method SetWinner(winnerIndex: int)
      requires Valid()
      modifies this`roundWinnerIndex, this`turn
      ensures Valid()
      ensures Value() == old(Value()).(roundWinnerIndex := winnerIndex, turn := Cleared(old(turn)).(hasDrawn := false))
    {
      hide SeatedIn, LaidIn, PlayerValues, CompValues;
      roundWinnerIndex := winnerIndex;
      turn := turn.(hasDrawn := false, mustUseDiscardDraw := false, discardDrawCard := None);
    }

    method CurrentPlayer() returns (error: Option<GameError>)
      requires Valid() && 0 <= turn.playerIndex && (|players| > 0 ==> turn.playerIndex < |players|)
      ensures error == if HasCurrent(Value()) then None else Some(CurrentError(Value()))
    {
      hide SeatedIn, LaidIn, PlayerValues, CompValues;
      if |players| == 0 {
        return Some(NoPlayers);
      }
      if players[turn.playerIndex].forfeited {
        return Some(PlayerNotFound);
      }
      return None;
    }

    method ActivePlayers() returns (flags: seq<bool>)
      requires Valid()
      ensures flags == ActiveFlags(Players())
    {
      hide SeatedIn, LaidIn, PlayerValues, CompValues;
      flags := [];
      for i := 0 to |players|
        invariant flags == ActiveFlags(Players())[..i]
      {
        flags := flags + [!players[i].forfeited];
      }
    }

    // -------------------------------------------------------------- drawing

    method RecycleDiscardIntoDrawPileIfNeeded()
      requires Valid()
      modifies drawPile, discardPile
      ensures Valid() && Value() == Recycled(old(Value()))
    {
      hide SeatedIn, LaidIn, PlayerValues, CompValues;
      if |drawPile.cards| != 0 || |discardPile.cards| <= 1 {
        return;
      }
      var cards := discardPile.cards;
      var recycled: seq<Card> := [];
      for i := 0 to |cards| - 1
        invariant recycled == Reversed(cards[1..])[..i]
        invariant discardPile.cards == cards && drawPile.cards == []
      {
        recycled := recycled + [cards[|cards| - 1 - i]];
      }
      drawPile.cards := recycled;
      discardPile.cards := cards[..1];
    }

    /** One player's hand takes the top card of the draw pile. */
    method DrawToHand(i: int) returns (drawn: bool)
      requires Valid() && 0 <= i < |players|
      modifies drawPile, people
      ensures Valid() && (drawn <==> old(drawPile.cards) != [])
      ensures Value() == if !drawn then old(Value())
                         else WithHand(old(Value()), i,
                                       old(players[i].hand.cards) + [old(drawPile.cards)[0]])
                              .(drawPile := old(drawPile.cards)[1..])
    {
      hide PlayerValues, CompValues;
      drawn := players[i].hand.Draw(drawPile);
      assert Players() == old(Players())[i := players[i].Value()];
    }

    method DrawFromDeck() returns (error: Option<GameError>)
      requires Valid() && WellFormed(Value())
      modifies this`turn, drawPile, discardPile, people
      ensures Valid() && Outcome(Value(), error) == GameModel.DrawFromDeck(old(Value()))
    {
      hide Valid, Players, LaidComps, SeatedIn, LaidIn, PlayerValues, CompValues, AllOk, DistinctIds, Recycled;
      Separate();
      if phase != InProgress {
        return Some(GameNotInProgress);
      }
      error := CurrentPlayer();
      if error.Some? {
        return;
      }
      if turn.hasDrawn {
        return Some(PlayerAlreadyDrew);
      }
      RecycleDiscardIntoDrawPileIfNeeded();
      RecycledKeeps(old(Value()));
      var drawn := DrawToHand(turn.playerIndex);
      if !drawn {
        return Some(NotEnoughCardsInDrawPile);
      }
      SetTurn(turn.(hasDrawn := true, mustUseDiscardDraw := false, discardDrawCard := None));
      return None;
    }

    /** The discard is taken only with a play at hand that uses it. */
    method DrawFromDiscard() returns (error: Option<GameError>, ghost accepted: bool)
      requires Valid() && WellFormed(Value())
      requires HasCurrent(Value()) ==> |players[turn.playerIndex].hand.cards| + 2 <= MAX_SEARCH_HAND
      modifies this`turn, discardPile, people
      ensures Valid()
      ensures accepted ==> old(phase) == InProgress && HasCurrent(old(Value())) && old(discardPile.cards) != []
      ensures accepted ==> CanUse(Tempted(old(Value())), old(LaidComps()), old(discardPile.cards)[0])
      ensures Outcome(Value(), error) == GameModel.DrawFromDiscard(old(Value()), accepted)
      ensures OpenedToDraw(old(Value())) ==> (error.None? <==> DiscardIsUsable(old(Value())))
      ensures UnopenedToDraw(old(Value())) && DiscardOpens(old(Value())) ==> error.None?
    {
      hide SeatedIn, LaidIn, PlayerValues, CompValues, AllOk, DistinctIds, CanUse, Accepted, BaseOf, NothingUses,
           OneAtOnce,
           SomePlayUses, SomePlainOpening;
      accepted := false;
      if phase != InProgress {
        return Some(GameNotInProgress), false;
      }
      error := CurrentPlayer();
      if error.Some? {
        return;
      }
      if turn.hasDrawn {
        return Some(PlayerAlreadyDrew), false;
      }
      var cp := players[turn.playerIndex].Value();
      var allowed;
      ghost var s, q;
      allowed, s, q := CanTakeDiscardNow(cp.hand, discardPile.cards, LaidComps(), cp.hasOpened);
      if cp.hasOpened && |discardPile.cards| > 0 {
        TakeableIff(cp.hand, discardPile.cards[0], LaidComps(), allowed, s, q);
      } else if |discardPile.cards| > 0 {
        PlainOpeningsAreFound(cp.hand, discardPile.cards[0], LaidComps(), allowed);
      }
      if !allowed {
        return Some(CannotTakeDiscardCard), false;
      }
      accepted := true;
      WitnessIsUse(cp, LaidComps(), discardPile.cards[0], s, q);
      var discardCard := discardPile.cards[0];
      discardPile.cards := discardPile.cards[1..];
      Store(turn.playerIndex, cp.(hand := cp.hand + [discardCard]));
      SetTurn(turn.(hasDrawn := true, mustUseDiscardDraw := true, discardDrawCard := Some(discardCard)));
      return None, true;
    }

    // -------------------------------------------------------------- playing on the table

    method PlayTable(comps: seq<Comp>, additions: seq<Addition>,
                     reclaims: seq<JokerReclaim>) returns (error: Option<GameError>)
      requires Valid() && WellFormed(Value()) && AllOk(comps)
      modifies this`activeCompositions, this`laid, this`turn, people
      ensures Valid() && fresh(laid - old(laid))
      ensures Outcome(Value(), error) == GameModel.PlayTable(old(Value()), comps, additions, reclaims)
    {
      hide Valid, Players, LaidComps, SeatedIn, LaidIn, PlayerValues, CompValues, AllOk, DistinctIds, ApplyTablePlay,
           UsesCard;
      Separate();
      if phase != InProgress {
        return Some(GameNotInProgress);
      }
      if !turn.hasDrawn {
        return Some(PlayerHasntDrawn);
      }
      if |comps| == 0 && |additions| == 0 && |reclaims| == 0 {
        return Some(Table(InvalidComposition));
      }
      error := CurrentPlayer();
      if error.Some? {
        return;
      }
      var cp := players[turn.playerIndex].Value();
      var next := ApplyTablePlayState(TableState(cp.hand, LaidComps(), cp.hasOpened), comps, additions, reclaims);
      if next.Failure? {
        return Some(Table(next.error));
      }
      if turn.mustUseDiscardDraw {
        var uses := false;
        if turn.discardDrawCard.Some? {
          uses := TablePlayUsesCard(comps, additions, reclaims, turn.discardDrawCard.value);
        }
        if !uses {
          return Some(MustUseDrawnDiscardCard);
        }
      }
      var statistics := Opened(cp, turn.number);
      Store(turn.playerIndex,
            cp.(hand := next.value.hand, hasOpened := next.value.hasOpened, statistics := statistics));
      LayTable(next.value.table);
      if turn.mustUseDiscardDraw {
        SetTurn(turn.(mustUseDiscardDraw := false));
      }
      return None;
    }

    // -------------------------------------------------------------- finishing a round

    /** Record the round for one player and add the points left in hand, unless won or forfeited. */
    method ScoreOne(i: int, winnerIndex: int) returns (points: nat)
      requires Valid() && 0 <= i < |players|
      modifies people
      ensures Valid() && Players() == old(Players())[i := Scored(old(Players())[i], round, i == winnerIndex)]
      ensures Value() == old(Value()).(players := Players())
      ensures points == RoundPoints(old(Players())[i], i == winnerIndex)
    {
      hide SeatedIn, LaidIn, PlayerValues, CompValues, Recorded, HandPoints;
      var player := players[i].Value();
      var statistics := player.statistics;
      if statistics.roundsPlayed >= round {
        statistics := Recorded(statistics, round, i == winnerIndex);
      }
      if i == winnerIndex || player.forfeited {
        Store(i, player.(pointsGained := 0, unadjustedTotalPoints := player.totalPoints, statistics := statistics));
        return 0;
      }
      points := players[i].hand.Points();
      Store(i, player.(pointsGained := points, totalPoints := player.totalPoints + points,
                       unadjustedTotalPoints := player.totalPoints + points,
                       statistics := statistics.(penaltyPoints := statistics.penaltyPoints + points)));
    }

    method ScorePlayers(winnerIndex: int) returns (pointsInflicted: nat)
      requires Valid() && 0 <= winnerIndex < |players|
      modifies people
      ensures Valid() && Value() == old(Value()).(players := Players())
      ensures forall i :: 0 <= i < |players| ==> Players()[i] == Scored(old(Players())[i], round, i == winnerIndex)
      ensures pointsInflicted == Inflicted(old(Players()), winnerIndex)
    {
      hide SeatedIn, LaidIn, PlayerValues, CompValues, Scored, RoundPoints;
      pointsInflicted := 0;
      ghost var before := Players();
      for i := 0 to |players|
        invariant Valid() && Value() == old(Value()).(players := Players())
        invariant forall k :: 0 <= k < i ==> Players()[k] == Scored(before[k], round, k == winnerIndex)
        invariant forall k :: i <= k < |players| ==> Players()[k] == before[k]
        invariant pointsInflicted == Inflicted(before[..i], winnerIndex)
      {
        assert before[..i + 1][..i] == before[..i];
        var points := ScoreOne(i, winnerIndex);
        pointsInflicted := pointsInflicted + points;
      }
      assert before[..|before|] == before;
    }

    method CreditWinner(winnerIndex: int, pointsInflicted: int)
      requires Valid() && 0 <= winnerIndex < |players|
      modifies people
      ensures Valid() &&
              Players() == old(Players())[winnerIndex := Credited(old(Players())[winnerIndex], pointsInflicted)]
      ensures Value() == old(Value()).(players := Players())
    {
      hide SeatedIn, LaidIn, PlayerValues, CompValues, OneSuit, SixPairs;
      var winner := players[winnerIndex].Value();
      var statistics := winner.statistics.(pointsInflicted := winner.statistics.pointsInflicted + pointsInflicted);
      var sameSuit := HasSameSuitCollection(winner.hand);
      var sixPairs := HasSixIdenticalPairs(winner.hand);
      if sameSuit {
        statistics := statistics.(sameSuitWins := statistics.sameSuitWins + 1);
      } else if sixPairs {
        statistics := statistics.(sixPairsWins := statistics.sixPairsWins + 1);
      }
      Store(winnerIndex, winner.(statistics := statistics));
    }

    method AllOtherPlayersOverHundred(winnerIndex: int) returns (over: bool)
      requires Valid()
      ensures over <==> OthersOverLimit(Players(), winnerIndex)
    {
      hide SeatedIn, LaidIn, PlayerValues, CompValues;
      for i := 0 to |players|
        invariant forall k :: 0 <= k < i && k != winnerIndex && !Players()[k].forfeited ==>
                    Players()[k].totalPoints > SCORE_LIMIT
      {
        assert Players()[i] == players[i].Value();
        if i == winnerIndex || players[i].forfeited {
          continue;
        }
        if players[i].totalPoints <= SCORE_LIMIT {
          return false;
        }
      }
      return true;
    }

    /** The best of the active totals within the limit, or -1. */
    method HighestWithinLimit() returns (highestRemaining: int)
      requires Valid()
      ensures highestRemaining == HighestRemaining(Players())
    {
      hide SeatedIn, LaidIn, PlayerValues, CompValues;
      highestRemaining := -1;
      for i := 0 to |players|
        invariant highestRemaining == HighestRemaining(Players()[..i])
      {
        assert Players()[..i + 1][..i] == Players()[..i];
        if players[i].forfeited || players[i].totalPoints > SCORE_LIMIT {
          continue;
        }
        if players[i].totalPoints > highestRemaining {
          highestRemaining := players[i].totalPoints;
        }
      }
      assert Players()[..|players|] == Players();
    }

    method ApplyOverHundredAdjustment()
      requires Valid()
      modifies people
      ensures Valid() && Players() == Adjusted(old(Players())) && Value() == old(Value()).(players := Players())
    {
      hide SeatedIn, LaidIn, PlayerValues, CompValues, HighestRemaining;
      var highestRemaining := HighestWithinLimit();
      if highestRemaining < 0 {
        return;
      }
      ghost var before := Players();
      for i := 0 to |players|
        invariant Valid() && Value() == old(Value()).(players := Players())
        invariant forall k :: 0 <= k < i ==> Players()[k] == Lowered(before[k], highestRemaining)
        invariant forall k :: i <= k < |players| ==> Players()[k] == before[k]
      {
        if players[i].forfeited || players[i].totalPoints <= SCORE_LIMIT {
          continue;
        }
        Store(i, players[i].Value().(totalPoints := highestRemaining));
      }
    }

    method FinishRound(winnerIndex: int)
      requires Valid() && 0 <= winnerIndex < |players|
      modifies this`roundWinnerIndex, this`turn, this`phase, people
      ensures Valid() && Value() == GameModel.FinishRound(old(Value()), winnerIndex)
    {
      hide Valid, Players, LaidComps, SeatedIn, LaidIn, PlayerValues, CompValues, Recorded, HandPoints, OneSuit,
           SixPairs, Inflicted, Adjusted,
           OthersOverLimit, Credited, Scored;
      Separate();
      SetWinner(winnerIndex);
      var pointsInflicted := ScorePlayers(winnerIndex);
      CreditWinner(winnerIndex, pointsInflicted);
      assert Players() == ScoredPlayers(old(Players()), round, winnerIndex);
      if gameMode == Quick {
        SetPhase(GameOver);
        return;
      }
      var over := AllOtherPlayersOverHundred(winnerIndex);
      if over {
        SetPhase(GameOver);
        return;
      }
      ApplyOverHundredAdjustment();
      SetPhase(RoundOver);
    }

    // -------------------------------------------------------------- discarding

    /** Cards of one complete composition go on the discard pile from the last to the first. */
    method DiscardComposition(cards: seq<Card>)
      requires Valid()
      modifies discardPile
      ensures Valid() && Value() == old(Value()).(discardPile := cards + old(discardPile.cards))
    {
      hide SeatedIn, LaidIn, PlayerValues, CompValues;
      var i := |cards|;
      while i > 0
        invariant 0 <= i <= |cards| && discardPile.cards == cards[i..] + old(discardPile.cards)
      {
        i := i - 1;
        discardPile.AddToTop(cards[i]);
        assert cards[i..] == [cards[i]] + cards[i + 1..];
      }
    }

    lemma OnTheTable()
      requires Valid()
      ensures LaidIn(activeCompositions, laid) && LaidComps() == CompValues(activeCompositions, laid)
      ensures discardPile !in laid
    {
      hide SeatedIn, LaidIn, PlayerValues, CompValues;
    }

    method KeepOnly(remaining: seq<Composition>)
      requires Valid() && LaidIn(remaining, laid)
      modifies this`activeCompositions
      ensures Valid() && Value() == old(Value()).(table := CompValues(remaining, laid))
    {
      hide SeatedIn, LaidIn, PlayerValues, CompValues;
      activeCompositions := remaining;
    }

    method RemoveCompletedCompositionsToDiscard()
      requires Valid()
      modifies this`activeCompositions, discardPile
      ensures Valid()
      ensures var r := RemoveCompleted(old(LaidComps()), old(discardPile.cards));
              Value() == old(Value()).(table := r.table, discardPile := r.discardPile)
    {
      hide Valid, Players, LaidComps, SeatedIn, LaidIn, PlayerValues, CompValues, Complete, RemoveCompleted;
      OnTheTable();
      NothingLaidIn(laid);
      var remaining: seq<Composition> := [];
      ghost var table := LaidComps();
      CleanupStart(discardPile.cards);
      for i := 0 to |activeCompositions|
        invariant Valid() && Value() == old(Value()).(discardPile := discardPile.cards)
        invariant LaidIn(remaining, laid) && forall c :: c in remaining ==> c in activeCompositions[..i]
        invariant RemoveCompleted(table[..i], old(discardPile.cards)) ==
                  Cleanup(CompValues(remaining, laid), discardPile.cards)
      {
        OnTheTable();
        CleanupStep(table, i, old(discardPile.cards));
        var comp := activeCompositions[i];
        var complete := comp.IsComplete();
        if !complete {
          OneMoreLaid(activeCompositions, laid, remaining, i);
          remaining := remaining + [comp];
          continue;
        }
        DiscardComposition(comp.cards);
      }
      assert table[..|activeCompositions|] == table;
      KeepOnly(remaining);
    }

    method AdvanceTurn()
      requires Valid() && 0 <= turn.playerIndex < |players|
      modifies this`turn, drawPile, discardPile
      ensures Valid() && Value() == GameModel.AdvanceTurn(old(Value()))
    {
      hide SeatedIn, LaidIn, PlayerValues, CompValues, NextOf, Recycled;
      var flags := ActivePlayers();
      var next := NextActiveIndex(flags, turn.playerIndex);
      turn := Turn(turn.number + 1, next, false, false, None);
      RecycleDiscardIntoDrawPileIfNeeded();
    }

    /** A stale index is replaced by the first card equal to the expected one. */
    method ResolveIndex(hand: seq<Card>, cardIndex: int, expectedCard: Option<Card>) returns (index: int)
      ensures index == MatchIndex(hand, cardIndex, expectedCard)
    {
      index := cardIndex;
      if expectedCard.Some? {
        if cardIndex < 0 || cardIndex >= |hand| || hand[cardIndex] != expectedCard.value {
          index := -1;
          for k := 0 to |hand|
            invariant index == -1 && forall j :: 0 <= j < k ==> hand[j] != expectedCard.value
          {
            if hand[k] == expectedCard.value {
              return k;
            }
          }
        }
      }
    }

    /** What follows a discard: the round ends, or the turn passes on. */
    method EndTurn()
      requires Valid() && 0 <= turn.playerIndex < |players|
      modifies this`roundWinnerIndex, this`turn, this`phase, drawPile, discardPile, people
      ensures Valid()
      ensures var s := old(Value());
              Value() == if WinsRound(s.players[s.turn.playerIndex].hand) then GameModel.FinishRound(s,
                    s.turn.playerIndex) else GameModel.AdvanceTurn(s)
    {
      hide Valid, Players, LaidComps, SeatedIn, LaidIn, PlayerValues, CompValues, OneSuit, SixPairs,
           GameModel.FinishRound, GameModel.AdvanceTurn;
      Separate();
      var hand := players[turn.playerIndex].hand.cards;
      if |hand| == 0 {
        FinishRound(turn.playerIndex);
        return;
      }
      var special := HasSpecialWinningHand(hand);
      if special {
        FinishRound(turn.playerIndex);
        return;
      }
      AdvanceTurn();
    }

    /** The card at an index leaves one player's hand. */
    method TakeFromHand(i: int, index: int) returns (card: Option<Card>)
      requires Valid() && 0 <= i < |players|
      modifies people
      ensures Valid() && (card.Some? <==> 0 <= index < |old(players[i].hand.cards)|)
      ensures card.Some? ==> card.value == old(players[i].hand.cards)[index]
      ensures Value() ==
              if card.None? then old(Value())
              else WithHand(old(Value()), i, WithoutAt(old(players[i].hand.cards), index))
    {
      hide PlayerValues, CompValues, WithoutAt;
      card := players[i].hand.RemoveAt(index);
      assert Players() == old(Players())[i := players[i].Value()];
    }

    method PutOnTop(card: Card)
      requires Valid()
      modifies discardPile
      ensures Valid() && Value() == old(Value()).(discardPile := [card] + old(discardPile.cards))
    {
      hide SeatedIn, LaidIn, PlayerValues, CompValues;
      discardPile.AddToTop(card);
    }

    method DiscardFromHandMatching(cardIndex: int, expectedCard: Option<Card>) returns (error: Option<GameError>)
      requires Valid() && WellFormed(Value())
      modifies this`activeCompositions, this`roundWinnerIndex, this`turn, this`phase, drawPile, discardPile, people
      ensures Valid() && Outcome(Value(), error) == GameModel.Discard(old(Value()), cardIndex, expectedCard)
    {
      hide Valid, Players, LaidComps, SeatedIn, LaidIn, PlayerValues, CompValues, AllOk, DistinctIds, MatchIndex,
           RemoveCompleted, WinsRound,
           GameModel.FinishRound, GameModel.AdvanceTurn, WithoutAt;
      Separate();
      if phase != InProgress {
        return Some(GameNotInProgress);
      }
      if !turn.hasDrawn {
        return Some(PlayerHasntDrawn);
      }
      if turn.mustUseDiscardDraw {
        return Some(MustUseDrawnDiscardCard);
      }
      error := CurrentPlayer();
      if error.Some? {
        return;
      }
      var index := ResolveIndex(players[turn.playerIndex].hand.cards, cardIndex, expectedCard);
      var card := TakeFromHand(turn.playerIndex, index);
      if card.None? {
        return Some(RemovingCard);
      }
      RemoveCompletedCompositionsToDiscard();
      PutOnTop(card.value);
      assert Value() == Discarded(old(Value()), turn.playerIndex, index);
      EndTurn();
      return None;
    }

    // -------------------------------------------------------------- rounds

    /** One player before a round: a new hand, nothing gained, not opened. */
    method ClearPlayer(i: int)
      requires Valid() && 0 <= i < |players|
      modifies this`people, people
      ensures Valid() && people >= old(people) && fresh(people - old(people))
      ensures var p := old(Players())[i];
              Players() == old(Players())[i := p.(hand := [], pointsGained := 0, unadjustedTotalPoints := p.totalPoints,
                                                  hasOpened := false)]
      ensures Value() == old(Value()).(players := Players())
    {
      hide SeatedIn, LaidIn, PlayerValues, CompValues;
      EmptyHand(i);
      var p := players[i].Value();
      Store(i, p.(pointsGained := 0, unadjustedTotalPoints := p.totalPoints, hasOpened := false));
    }

    method ClearPlayers()
      requires Valid()
      modifies this`people, people
      ensures Valid() && people >= old(people) && fresh(people - old(people))
      ensures Value() == old(Value()).(players := Reset(old(Value()), []).players)
    {
      hide SeatedIn, LaidIn, PlayerValues, CompValues;
      ghost var before := Players();
      for i := 0 to |players|
        invariant Valid() && people >= old(people) && fresh(people - old(people))
        invariant Value() == old(Value()).(players := Players())
        invariant forall k :: 0 <= k < i ==>
          Players()[k] == before[k].(hand := [], pointsGained := 0, unadjustedTotalPoints := before[k].totalPoints,
                                     hasOpened := false)
        invariant forall k :: i <= k < |players| ==> Players()[k] == before[k]
      {
        ClearPlayer(i);
      }
      assert Players() == Reset(old(Value()), []).players;
    }

    method ResetRoundState(pile: CardPile)
      requires Valid() && pile != discardPile && pile !in people + laid
      modifies this, people
      ensures Valid() && drawPile == pile && fresh(discardPile) && laid == old(laid)
      ensures people >= old(people) && fresh(people - old(people)) && gameMode == old(gameMode)
      ensures Value() == Reset(old(Value()), old(pile.cards))
    {
      hide SeatedIn, LaidIn, PlayerValues, CompValues;
      ClearPlayers();
      ClearTable(pile);
      phase := Lobby;
      roundWinnerIndex := -1;
      turn := FIRST_TURN;
    }

    method ClearTable(pile: CardPile)
      requires Valid() && pile !in people + laid
      modifies this`activeCompositions, this`drawPile, this`discardPile
      ensures Valid() && drawPile == pile && fresh(discardPile)
      ensures Value() == old(Value()).(table := [], drawPile := pile.cards, discardPile := [])
    {
      hide SeatedIn, PlayerValues, CompValues;
      activeCompositions := [];
      drawPile := pile;
      discardPile := new CardPile([]);
    }

    method CountRounds(activeIndexes: seq<int>)
      requires Valid() && activeIndexes == D.ActiveIndexes(Players())
      modifies people
      ensures Valid() && Players() == CountRound(old(Players())) && Value() == old(Value()).(players := Players())
    {
      hide SeatedIn, LaidIn, PlayerValues, CompValues;
      ghost var before := Players();
      for k := 0 to |activeIndexes|
        invariant Valid() && Value() == old(Value()).(players := Players())
        invariant forall i :: 0 <= i < |players| ==>
          Players()[i] == if i in activeIndexes[..k] then CountRound(before)[i] else before[i]
      {
        var index := activeIndexes[k];
        assert activeIndexes[..k + 1] == activeIndexes[..k] + [index];
        if index in activeIndexes[..k] {
          assert false;
        }
        var p := players[index].Value();
        Store(index, p.(statistics := p.statistics.(roundsPlayed := p.statistics.roundsPlayed + 1)));
      }
      assert activeIndexes[..|activeIndexes|] == activeIndexes;
      forall i | 0 <= i < |players|
        ensures Players()[i] == CountRound(before)[i]
      {
        if !before[i].forfeited {
          D.EveryActiveIndex(before, i);
        }
      }
    }

    method FindSpecial() returns (index: nat)
      requires Valid()
      ensures index == FirstSpecial(Players())
    {
      hide SeatedIn, LaidIn, PlayerValues, CompValues, OneSuit, SixPairs;
      ghost var seated := Players();
      for i := 0 to |players|
        invariant FirstSpecial(seated[..i]) == i
      {
        assert seated[..i + 1][..i] == seated[..i];
        if !players[i].forfeited {
          var special := HasSpecialWinningHand(players[i].hand.cards);
          if special {
            FirstSpecialStays(seated, i);
            return i;
          }
        }
      }
      assert seated[..|players|] == seated;
      return |players|;
    }

    /** Deal from the draw pile into the hands; a deal that fails moves no card. */
    method DealInitialHands(dt: D.DealType, order: Option<seq<int>>, cutSize: int) returns (error: Option<D.DealError>)
      requires Valid() && (dt == D.InBlocks ==> order.Some?)
      modifies drawPile, people
      ensures Valid() && D.Carried(D.InitialDeal(old(Players()), old(drawPile.cards), dt, order, dealerIndex, cutSize),
                                   old(Players()), old(drawPile.cards), Players(), drawPile.cards, error)
      ensures Value() == old(Value()).(players := Players(), drawPile := drawPile.cards)
    {
      hide SeatedIn, LaidIn, PlayerValues, CompValues, D.InitialDeal;
      ghost var before := Players();
      var dealt;
      dealt, error := D.DealInitialHands(Players(), drawPile, dt, order, dealerIndex, cutSize);
      DealtLength(before, old(drawPile.cards), dt, order, dealerIndex, cutSize, dealt, drawPile.cards, error);
      ghost var pile := drawPile.cards;
      for i := 0 to |players|
        invariant Valid() && drawPile.cards == pile
        invariant Value() == old(Value()).(players := Players(), drawPile := drawPile.cards)
        invariant forall k :: 0 <= k < i ==> Players()[k] == dealt[k]
      {
        Store(i, dealt[i]);
      }
      assert Players() == dealt;
    }

    /** Why the round cannot be dealt, if it cannot. */
    method CheckDeal(dealerIndex': int, chooserIndex: int, dt: D.DealType, order: Option<seq<int>>)
      returns (activeIndexes: seq<int>, error: Option<GameError>)
      requires Valid()
      ensures activeIndexes == D.ActiveIndexes(Players())
      ensures error == DealChecks(Value(), dealerIndex', chooserIndex, dt, order)
    {
      hide Valid, Players, LaidComps, SeatedIn, LaidIn, PlayerValues, CompValues, PreviousOf;
      Separate();
      activeIndexes := D.ActivePlayerIndexes(Players());
      error := None;
      if |activeIndexes| < 2 {
        return activeIndexes, Some(NotEnoughPlayers);
      }
      var flags := ActivePlayers();
      if !IsActive(flags, dealerIndex') {
        return activeIndexes, Some(InvalidDealer);
      }
      var expected := PreviousActiveIndex(flags, dealerIndex');
      if chooserIndex != expected {
        return activeIndexes, Some(InvalidDealChooser);
      }
      if dt == D.InBlocks && order.None? {
        return activeIndexes, Some(InvalidDealingOrder);
      }
      if |drawPile.cards| < INITIAL_HAND_SIZE * |activeIndexes| + 1 {
        return activeIndexes, Some(NotEnoughCardsInDrawPile);
      }
    }

    method SetDealer(next: int)
      requires Valid()
      modifies this`dealerIndex
      ensures Valid() && Value() == old(Value()).(dealerIndex := next)
    {
      hide SeatedIn, LaidIn, PlayerValues, CompValues;
      dealerIndex := next;
    }

    /** Check the dealer and the chooser, deal, count the round, and open the discard pile. */
    method StartRound(dealerIndex': int, chooserIndex: int, dt: D.DealType, order: Option<seq<int>>,
                      cutSize: int) returns (error: Option<GameError>)
      requires Valid()
      modifies this`dealerIndex, this`roundWinnerIndex, this`turn, this`phase, drawPile, discardPile, people
      ensures Valid()
      ensures Outcome(Value(), error) ==
              GameModel.StartRound(old(Value()), dealerIndex', chooserIndex, dt, order, cutSize)
    {
      hide Valid, Players, LaidComps, SeatedIn, LaidIn, PlayerValues, CompValues, D.InitialDeal, D.ActiveIndexes,
           DealChecks,
           GameModel.StartRound, GameModel.Dealt;
      Separate();
      ghost var s := Value();
      RefusedRound(s, dealerIndex', chooserIndex, dt, order, cutSize);
      var activeIndexes;
      activeIndexes, error := CheckDeal(dealerIndex', chooserIndex, dt, order);
      if error.Some? {
        return;
      }
      StartRoundInSteps(s, dealerIndex', chooserIndex, dt, order, cutSize);
      ChecksMean(s, dealerIndex', chooserIndex, dt, order);
      SetDealer(dealerIndex');
      var failed := DealInitialHands(dt, order, cutSize);
      if failed.Some? {
        return Some(Deal(failed.value));
      }
      D.DealConserves(s.players, s.drawPile, dt, order, dealerIndex', cutSize);
      SameActive(s.players, Players());
      DealtFrom(s, Value(), dealerIndex', D.Dealt(Players(), drawPile.cards));
      BeginRound(activeIndexes);
    }

    method SetRound(next: int)
      requires Valid()
      modifies this`round
      ensures Valid() && Value() == old(Value()).(round := next)
    {
      hide SeatedIn, LaidIn, PlayerValues, CompValues;
      round := next;
    }

    /** The round is on, and a player is to move. */
    method BeginTurns(next: int)
      requires Valid()
      modifies this`turn, this`phase
      ensures Valid() && Value() == old(Value()).(turn := old(turn).(playerIndex := next), phase := InProgress)
    {
      hide SeatedIn, LaidIn, PlayerValues, CompValues;
      turn := turn.(playerIndex := next);
      phase := InProgress;
    }

    /** The top card of the draw pile starts the discard pile. */
    method TurnUp()
      requires Valid() && drawPile.cards != []
      modifies drawPile, discardPile
      ensures Valid()
      ensures Value() ==
              old(Value()).(drawPile := old(drawPile.cards)[1..],
                  discardPile := [old(drawPile.cards)[0]] + old(discardPile.cards))
    {
      hide SeatedIn, LaidIn, PlayerValues, CompValues;
      var card := drawPile.DrawOne();
      discardPile.AddToTop(card.value);
    }

    /** A winning hand ends the round at once; otherwise the player after the dealer is to move. */
    method OpenRound()
      requires Valid() && 0 <= dealerIndex < |players|
      modifies this`roundWinnerIndex, this`turn, this`phase, people
      ensures Valid() && Value() == Opening(old(Value()))
    {
      hide Valid, Players, LaidComps, SeatedIn, LaidIn, PlayerValues, CompValues, FirstSpecial, NextOf, ActiveFlags,
           GameModel.FinishRound;
      Separate();
      var special := FindSpecial();
      if special < |players| {
        FinishRound(special);
        return;
      }
      var flags := ActivePlayers();
      var next := NextActiveIndex(flags, dealerIndex);
      BeginTurns(next);
    }

    /** The hands are dealt: the round is counted and begins, unless someone has already won it. */
    method BeginRound(activeIndexes: seq<int>)
      requires Valid() && activeIndexes == D.ActiveIndexes(Players()) && drawPile.cards != [] &&
               0 <= dealerIndex < |players|
      modifies this`roundWinnerIndex, this`turn, this`phase, drawPile, discardPile, people
      ensures Valid()
      ensures Value() == GameModel.Dealt(old(Value()), old(dealerIndex), D.Dealt(old(Players()), old(drawPile.cards)))
    {
      hide Valid, Players, LaidComps, SeatedIn, LaidIn, PlayerValues, CompValues, CountRound, Opening, GameModel.Dealt;
      Separate();
      CountRounds(activeIndexes);
      TurnUp();
      DealtInSteps(old(Value()), Value());
      OpenRound();
    }

    method StartGameWithMode(dealerIndex': int, chooserIndex: int, dt: D.DealType, order: Option<seq<int>>,
                             cutSize: int, mode: Mode)
      returns (error: Option<GameError>)
      requires Valid()
      modifies this, drawPile, discardPile, people
      ensures Valid() && fresh(Repr() - old(Repr()))
      ensures Outcome(Value(), error) == StartGame(old(Value()), dealerIndex', chooserIndex, dt, order, cutSize, mode)
    {
      hide SeatedIn, LaidIn, PlayerValues, CompValues, GameModel.StartRound, Reset;
      if phase != Lobby {
        return Some(GameInProgress);
      }
      if mode == UnknownMode {
        return Some(InvalidGameMode);
      }
      ResetRoundState(drawPile);
      gameMode := mode;
      error := StartRound(dealerIndex', chooserIndex, dt, order, cutSize);
    }

    /** The deal passes to the next active player, and the one before chooses. */
    method DealOn(dt: D.DealType, order: Option<seq<int>>, cutSize: int) returns (error: Option<GameError>)
      requires Valid() && 0 <= dealerIndex && (|players| > 0 ==> dealerIndex < |players|)
      modifies this`dealerIndex, this`roundWinnerIndex, this`turn, this`phase, drawPile, discardPile, people
      ensures Valid()
      ensures var s := old(Value()); var flags := ActiveFlags(s.players);
              var dealer := NextOf(flags, s.dealerIndex);
              Outcome(Value(), error) == GameModel.StartRound(s, dealer, PreviousOf(flags, dealer), dt, order, cutSize)
    {
      hide Valid, Players, LaidComps, SeatedIn, LaidIn, PlayerValues, CompValues, GameModel.StartRound, NextOf,
           PreviousOf;
      Separate();
      var flags := ActivePlayers();
      var dealer := NextActiveIndex(flags, dealerIndex);
      var chooser := PreviousActiveIndex(flags, dealer);
      error := StartRound(dealer, chooser, dt, order, cutSize);
    }

    method StartNextRound(dt: D.DealType, order: Option<seq<int>>, cutSize: int,
                          deck: seq<Card>) returns (error: Option<GameError>)
      requires Valid() && multiset(deck) == DoubleDeck()
      requires 0 <= dealerIndex && (|players| > 0 ==> dealerIndex < |players|)
      modifies this, drawPile, discardPile, people
      ensures Valid() && fresh(Repr() - old(Repr()))
      ensures Outcome(Value(), error) == GameModel.StartNextRound(old(Value()), dt, order, cutSize, deck)
    {
      hide Valid, Players, LaidComps, SeatedIn, LaidIn, PlayerValues, CompValues, GameModel.StartRound,
           GameModel.StartNextRound, Reset, NextOf, PreviousOf, ActiveFlags, DoubleDeck;
      Separate();
      NextRoundInSteps(Value(), dt, order, cutSize, deck);
      if phase != RoundOver {
        return Some(CannotStartNextRound);
      }
      var pile := ShuffledGameDeck(deck);
      ResetRoundState(pile);
      Separate();
      ResetFlags(old(Value()), deck);
      error := DealOn(dt, order, cutSize);
      if error.Some? {
        return;
      }
      SetRound(round + 1);
    }

    // -------------------------------------------------------------- players come and go

    method AddPlayer(p: SeatedPlayer) returns (error: Option<GameError>)
      requires Valid() && p !in Repr() && p.hand !in Repr()
      modifies this`players, this`people
      ensures Valid() && people <= old(people) + {p, p.hand}
      ensures Outcome(Value(), error) == GameModel.AddPlayer(old(Value()), p.Value())
    {
      hide PlayerValues, CompValues;
      if phase != Lobby {
        return Some(GameInProgress);
      }
      if |players| >= maxPlayers {
        return Some(GameFull);
      }
      for i := 0 to |players|
        invariant forall k :: 0 <= k < i ==> players[k].id != p.id
      {
        if players[i].id == p.id {
          assert Players()[i].id == p.id;
          return Some(PlayerExists);
        }
      }
      players := players + [p];
      people := people + {p, p.hand};
      assert Players() == old(Players()) + [p.Value()];
      return None;
    }

    method FindSeat(playerId: string) returns (seat: int)
      requires Valid()
      ensures var i := SeatOf(Players(), playerId); seat == if i < |players| then i else -1
    {
      hide SeatedIn, LaidIn, PlayerValues, CompValues;
      for index := 0 to |players|
        invariant forall j :: 0 <= j < index ==> Players()[j].id != playerId
      {
        if players[index].id == playerId {
          return index;
        }
      }
      return -1;
    }

    method ForfeitOrderFor(seat: int) returns (order: int)
      requires Valid()
      ensures order == NextForfeitOrder(Players(), seat)
    {
      hide SeatedIn, LaidIn, PlayerValues, CompValues;
      order := 1;
      ghost var seated := Players();
      for i := 0 to |players|
        invariant order == NextForfeitOrder(seated[..i], seat)
      {
        assert seated[..i + 1][..i] == seated[..i];
        if i != seat && players[i].statistics.forfeitOrder >= order {
          order := players[i].statistics.forfeitOrder + 1;
        }
      }
      assert seated[..|players|] == seated;
    }

    method RecordWinner(winnerIndex: int)
      requires Valid()
      modifies people
      ensures Valid() && Value() == old(Value()).(players := RecordedAll(old(Players()), round, winnerIndex))
    {
      hide SeatedIn, LaidIn, PlayerValues, CompValues, Recorded;
      ghost var before := Players();
      for i := 0 to |players|
        invariant Valid() && Value() == old(Value()).(players := Players())
        invariant forall k :: 0 <= k < i ==> Players()[k] == RecordedAll(before, round, winnerIndex)[k]
        invariant forall k :: i <= k < |players| ==> Players()[k] == before[k]
      {
        var p := players[i].Value();
        if p.statistics.roundsPlayed >= round {
          Store(i, p.(statistics := Recorded(p.statistics, round, i == winnerIndex)));
        }
      }
      assert Players() == RecordedAll(before, round, winnerIndex);
    }

    /** Cards join the draw pile, which takes the order `shuffled`. */
    method Reshuffle(cards: seq<Card>, shuffled: seq<Card>)
      requires Valid() && multiset(shuffled) == multiset(drawPile.cards) + multiset(cards)
      modifies drawPile
      ensures Valid() && Value() == old(Value()).(drawPile := shuffled)
    {
      hide SeatedIn, LaidIn, PlayerValues, CompValues;
      drawPile.cards := drawPile.cards + cards;
      drawPile.Shuffle(shuffled);
    }

    /** The hand goes back into the draw pile, in the order `shuffled`, and the player gets a new one. */
    method TakeOut(seat: int, shuffled: seq<Card>)
      requires Valid() && 0 <= seat < |players|
      requires multiset(shuffled) == multiset(drawPile.cards) + multiset(players[seat].hand.cards)
      modifies this`people, people, drawPile
      ensures Valid() && people >= old(people) && fresh(people - old(people))
      ensures Value() == Without(old(Value()), seat, shuffled)
    {
      hide Valid, Players, LaidComps, SeatedIn, LaidIn, PlayerValues, CompValues, NextForfeitOrder;
      Separate();
      var player := players[seat].Value();
      var order := ForfeitOrderFor(seat);
      if |player.hand| > 0 {
        Reshuffle(player.hand, shuffled);
      }
      EmptyHand(seat);
      Separate();
      Store(seat, player.(hand := [], pointsGained := 0, unadjustedTotalPoints := player.totalPoints, forfeited := true,
                          statistics := player.statistics.(forfeitOrder := order)));
    }

    /** A player has left: the game ends with one player, whose id is returned, or the turn passes on. */
    method AfterLeaving(seat: int) returns (winner: string)
      requires Valid() && 0 <= turn.playerIndex < |players|
      modifies this`roundWinnerIndex, this`phase, this`turn, drawPile, discardPile, people
      ensures Valid() && Value() == Left(old(Value()), seat) && winner == ReportedWinner(old(Value()))
    {
      hide Valid, Players, LaidComps, SeatedIn, LaidIn, PlayerValues, CompValues, RecordedAll, GameModel.AdvanceTurn,
           D.ActiveIndexes;
      Separate();
      winner := "";
      var activeIndexes := D.ActivePlayerIndexes(Players());
      if |activeIndexes| == 1 {
        winner := players[activeIndexes[0]].id;
        RecordWinner(activeIndexes[0]);
        SetWinner(activeIndexes[0]);
        SetPhase(GameOver);
        return;
      }
      if phase == InProgress && turn.playerIndex == seat {
        AdvanceTurn();
      }
    }

    /** `shuffled` is an order of the draw pile and the hand that returns to it. */
    method ForfeitPlayer(playerId: string, shuffled: seq<Card>) returns (winner: string, error: Option<GameError>)
      requires Valid() && 0 <= turn.playerIndex && (|players| > 0 ==> turn.playerIndex < |players|)
      requires var i := SeatOf(Players(), playerId);
               i < |players| ==> multiset(shuffled) == multiset(drawPile.cards) + multiset(players[i].hand.cards)
      modifies this`people, this`roundWinnerIndex, this`phase, this`turn, drawPile, discardPile, people
      ensures Valid() && people >= old(people) && fresh(people - old(people))
      ensures Outcome(Value(), error) == Forfeit(old(Value()), playerId, shuffled)
      ensures error.None? ==> SeatOf(old(Players()), playerId) < |old(players)| &&
                              winner == ReportedWinner(Without(old(Value()), SeatOf(old(Players()), playerId),
                                                               shuffled))
    {
      hide Valid, Players, LaidComps, SeatedIn, LaidIn, PlayerValues, CompValues, NextForfeitOrder, Left, Forfeit,
           Without,
           ReportedWinner;
      Separate();
      ghost var s := Value();
      ForfeitInSteps(s, playerId, shuffled);
      winner := "";
      if phase != InProgress && phase != RoundOver {
        return winner, Some(GameNotInProgress);
      }
      var seat := FindSeat(playerId);
      if seat < 0 {
        return winner, Some(PlayerNotFound);
      }
      if players[seat].forfeited {
        return winner, Some(PlayerAlreadyForfeited);
      }
      TakeOut(seat, shuffled);
      Separate();
      WithoutFields(s, seat, shuffled);
      winner := AfterLeaving(seat);
      error := None;
    }

    method EndWithoutWinner() returns (error: Option<GameError>)
      requires Valid()
      modifies this`roundWinnerIndex, this`phase, this`turn
      ensures Valid() && Outcome(Value(), error) == GameModel.EndWithoutWinner(old(Value()))
    {
      hide Valid, Players, LaidComps, SeatedIn, LaidIn, PlayerValues, CompValues;
      Separate();
      if phase != InProgress && phase != RoundOver {
        return Some(GameNotInProgress);
      }
      SetPhase(GameOver);
      SetWinner(-1);
      return None;
    }

    // -------------------------------------------------------------- playing and discarding at once

    /** The play and then, if it succeeds, the discard. */
    method PlayAndDiscardHere(cardIndex: int, expectedCard: Option<Card>, comps: seq<Comp>, additions: seq<Addition>,
                              reclaims: seq<JokerReclaim>)
      returns (error: Option<GameError>)
      requires Valid() && WellFormed(Value()) && AllOk(comps)
      requires WellFormed(GameModel.PlayTable(Value(), comps, additions, reclaims).state)
      modifies this`activeCompositions, this`laid, this`roundWinnerIndex, this`turn, this`phase,
               drawPile, discardPile, people
      ensures Valid() && fresh(laid - old(laid))
      ensures Outcome(Value(), error) == Both(old(Value()), comps, additions, reclaims, cardIndex, expectedCard)
    {
      hide Valid, Players, LaidComps, SeatedIn, LaidIn, PlayerValues, CompValues, AllOk, WellFormed,
           GameModel.PlayTable, Discard;
      Separate();
      error := PlayTable(comps, additions, reclaims);
      if error.Some? {
        return;
      }
      Separate();
      error := DiscardFromHandMatching(cardIndex, expectedCard);
    }

    /** A game restored from this one's snapshot. */
    method RestoredCopy() returns (next: GameState)
      requires Valid() && Restore(SnapshotOf(Value())).Success?
      ensures next.Valid() && fresh(next.Repr()) && Success(next.Value()) == Restore(SnapshotOf(Value()))
    {
      hide Valid, Players, LaidComps, SeatedIn, LaidIn, PlayerValues, CompValues, SnapshotOf, Restore;
      var snapshot := TakeSnapshot(Value());
      var restored := RestoreGameState(snapshot);
      next := new GameState.Of(restored.value);
    }

    /** Work on a restored copy and take it over only if both parts succeed. */
    method PlayTableAndDiscardMatching(cardIndex: int, expectedCard: Option<Card>, comps: seq<Comp>,
                                       additions: seq<Addition>,
                                       reclaims: seq<JokerReclaim>)
      returns (error: Option<GameError>)
      requires Valid() && Inv(Value()) && AllOk(comps) && (turn.mustUseDiscardDraw ==> turn.discardDrawCard.Some?)
      modifies this
      ensures Valid() && fresh(Repr() - old(Repr()))
      ensures Outcome(Value(), error) ==
              PlayThenDiscard(old(Value()), comps, additions, reclaims, cardIndex, expectedCard)
    {
      hide Valid, Players, LaidComps, SeatedIn, LaidIn, PlayerValues, CompValues, AllOk, Inv, Restored, Both,
           PlayThenDiscard,
           WellFormed, GameModel.PlayTable, SnapshotOf, Restore;
      Separate();
      Restorable(Value());
      var next := RestoredCopy();
      CopyIsReady(Value(), comps, additions, reclaims);
      BothOnCopy(Value(), comps, additions, reclaims, cardIndex, expectedCard);
      next.Separate();
      error := next.PlayAndDiscardHere(cardIndex, expectedCard, comps, additions, reclaims);
      if error.Some? {
        return;
      }
      Become(next);
    }
  }

  /** A player who has opened is to draw. */
  predicate OpenedToDraw(s: State) {
    s.phase == InProgress && HasCurrent(s) && !s.turn.hasDrawn && s.players[s.turn.playerIndex].hasOpened
  }

  predicate UnopenedToDraw(s: State) {
    s.phase == InProgress && HasCurrent(s) && !s.turn.hasDrawn && !s.players[s.turn.playerIndex].hasOpened
  }

  /** Some such play that puts its cards to plain use opens with the top discard. */
  ghost predicate DiscardOpens(s: State)
    requires HasCurrent(s)
  {
    s.discardPile != [] && SomePlainOpening(s.players[s.turn.playerIndex].hand, s.discardPile[0], s.table)
  }

  /** Some play with at most one reclaim, made at once, uses the top discard. */
  ghost predicate DiscardIsUsable(s: State)
    requires HasCurrent(s)
  {
    s.discardPile != [] && SomePlayUses(s.players[s.turn.playerIndex].hand, s.discardPile[0], s.table)
  }

  lemma WitnessIsUse(p: Player, table: seq<Comp>, discard: Card, s: SearchState, q: SearchPlay)
    requires Accepted(s, q, q.reclaims) && BaseOf(s, p.hand + [discard], q) && s.table == table &&
             s.hasOpened == p.hasOpened
    ensures CanUse(p.(hand := p.hand + [discard]), table, discard)
  {
    hide Accepted, BaseOf;
  }

  lemma {:induction false} FirstSpecialStays(players: seq<Player>, i: nat)
    requires i < |players| && FirstSpecial(players[..i + 1]) == i
    ensures FirstSpecial(players) == i
    decreases |players|
  {
    hide OneSuit, SixPairs;
    if i + 1 < |players| {
      var front := players[..|players| - 1];
      assert front[..i + 1] == players[..i + 1];
      FirstSpecialStays(front, i);
    } else {
      assert players[..i + 1] == players;
    }
  }

  lemma {:induction false} SameActive(players: seq<Player>, after: seq<Player>)
    requires |after| == |players| && forall i :: 0 <= i < |players| ==> after[i].forfeited == players[i].forfeited
    ensures D.ActiveIndexes(after) == D.ActiveIndexes(players)
  {
    if players != [] {
      var k := |players| - 1;
      SameActive(players[..k], after[..k]);
    }
  }

  lemma ResetFlags(s: State, deck: seq<Card>)
    ensures ActiveFlags(Reset(s, deck).players) == ActiveFlags(s.players)
    ensures Reset(s, deck).dealerIndex == s.dealerIndex && |Reset(s, deck).players| == |s.players|
  {
  }

  lemma DealtFrom(s: State, t: State, dealer: int, d: D.Dealt)
    requires t == s.(players := d.players, drawPile := d.pile, dealerIndex := dealer)
    requires |d.players| == |s.players| && |d.pile| > 0 && 0 <= dealer < |s.players|
    ensures GameModel.Dealt(t, dealer, d) == GameModel.Dealt(s, dealer, d)
  {
    hide FirstSpecial, NextOf, CountRound, ScoredPlayers, Adjusted, OthersOverLimit;
  }

  lemma Restorable(s: State)
    requires Inv(s) && (s.turn.mustUseDiscardDraw ==> s.turn.discardDrawCard.Some?)
    ensures WellFormed(s) && Restore(SnapshotOf(s)) == Success(Restored(s))
  {
    hide AllOk, Inv, Restored, Seated, SnapshotOf, Restore;
    SeatedInv(s);
    RestoreAccepts(s);
  }

  /** The restored copy can be played on, and after the play discarded from. */
  lemma CopyIsReady(s: State, comps: seq<Comp>, additions: seq<Addition>, reclaims: seq<JokerReclaim>)
    requires Inv(s) && AllOk(comps)
    ensures WellFormed(s) && WellFormed(Restored(s))
    ensures WellFormed(GameModel.PlayTable(Restored(s), comps, additions, reclaims).state)
  {
    hide AllOk, Inv, Obligation, Restored, GameModel.PlayTable, Seated;
    SeatedInv(s);
    RestoredKeeps(s);
    SeatedInv(Restored(s));
    PlayTableKeeps(Restored(s), comps, additions, reclaims);
    SeatedInv(GameModel.PlayTable(Restored(s), comps, additions, reclaims).state);
  }

  method ShuffledGameDeck(order: seq<Card>) returns (pile: CardPile)
    requires multiset(order) == DoubleDeck()
    ensures fresh(pile) && pile.cards == order
  {
    var cards := NewGameDeck();
    pile := new CardPile(cards);
    pile.Shuffle(order);
  }

  lemma DealtLength(players: seq<Player>, pile: seq<Card>, dt: D.DealType, order: Option<seq<int>>, dealer: int,
                    cut: int,
                    players': seq<Player>, pile': seq<Card>, error: Option<D.DealError>)
    requires D.Carried(D.InitialDeal(players, pile, dt, order, dealer, cut), players, pile, players', pile', error)
    ensures |players'| == |players|
  {
    hide D.InitialDeal;
    if error.None? {
      D.DealConserves(players, pile, dt, order, dealer, cut);
    }
  }

  /** The checks before a deal, in order. */
  ghost function DealChecks(s: State, dealer: int, chooser: int, dt: D.DealType,
                            order: Option<seq<int>>): Option<GameError> {
    var active := D.ActiveIndexes(s.players);
    if |active| < 2 then Some(NotEnoughPlayers)
    else if !IsActive(ActiveFlags(s.players), dealer) then Some(InvalidDealer)
    else if chooser != PreviousOf(ActiveFlags(s.players), dealer) then Some(InvalidDealChooser)
    else if dt == D.InBlocks && order.None? then Some(InvalidDealingOrder)
    else if |s.drawPile| < INITIAL_HAND_SIZE * |active| + 1 then Some(NotEnoughCardsInDrawPile)
    else None
  }

  lemma ChecksMean(s: State, dealer: int, chooser: int, dt: D.DealType, order: Option<seq<int>>)
    requires DealChecks(s, dealer, chooser, dt, order).None?
    ensures 0 <= dealer < |s.players| && (dt == D.InBlocks ==> order.Some?)
    ensures |s.drawPile| > INITIAL_HAND_SIZE * |D.ActiveIndexes(s.players)|
  {
    hide PreviousOf, D.ActiveIndexes;
  }

  lemma RefusedRound(s: State, dealer: int, chooser: int, dt: D.DealType, order: Option<seq<int>>, cut: int)
    ensures var e := DealChecks(s, dealer, chooser, dt, order);
            e.Some? ==> GameModel.StartRound(s, dealer, chooser, dt, order, cut) == Outcome(s, e)
  {
    hide PreviousOf, ActiveFlags, D.ActiveIndexes, D.InitialDeal, GameModel.Dealt;
  }

  lemma StartRoundInSteps(s: State, dealer: int, chooser: int, dt: D.DealType, order: Option<seq<int>>, cut: int)
    requires DealChecks(s, dealer, chooser, dt, order).None?
    ensures var d := D.InitialDeal(s.players, s.drawPile, dt, order, dealer, cut);
            if d.Failure? then
              GameModel.StartRound(s, dealer, chooser, dt, order, cut) == Outcome(s.(dealerIndex := dealer),
                                                                                  Some(Deal(d.error)))
            else
              |d.value.players| == |s.players| && |d.value.pile| > 0 && 0 <= dealer < |s.players| &&
              GameModel.StartRound(s, dealer, chooser, dt, order, cut) == Outcome(GameModel.Dealt(s, dealer, d.value),
                                                                                  None)
  {
    hide PreviousOf, ActiveFlags, D.ActiveIndexes, D.InitialDeal, GameModel.Dealt;
    if D.InitialDeal(s.players, s.drawPile, dt, order, dealer, cut).Success? {
      D.DealConserves(s.players, s.drawPile, dt, order, dealer, cut);
    }
  }

  /** What a round is once its hands are dealt and its first card lies open. */
  ghost function Opening(r: State): State
    requires 0 <= r.dealerIndex < |r.players|
  {
    var special := FirstSpecial(r.players);
    if special < |r.players| then GameModel.FinishRound(r, special)
    else r.(turn := r.turn.(playerIndex := NextOf(ActiveFlags(r.players), r.dealerIndex)), phase := InProgress)
  }

  /** `r` is `s` with the round counted and the first card turned up. */
  lemma DealtInSteps(s: State, r: State)
    requires |s.drawPile| > 0 && 0 <= s.dealerIndex < |s.players|
    requires r ==
             s.(players := CountRound(s.players), drawPile := s.drawPile[1..],
                discardPile := [s.drawPile[0]] + s.discardPile)
    ensures GameModel.Dealt(s, s.dealerIndex, D.Dealt(s.players, s.drawPile)) == Opening(r)
  {
    hide FirstSpecial, NextOf, CountRound, GameModel.FinishRound;
  }

  /** What follows once the player at `seat` is out. */
  ghost function Left(t: State, seat: int): State
    requires 0 <= t.turn.playerIndex < |t.players|
  {
    var active := D.ActiveIndexes(t.players);
    if |active| == 1 then
      t.(players := RecordedAll(t.players, t.round, active[0]), roundWinnerIndex := active[0],
         turn := Cleared(t.turn).(hasDrawn := false), phase := GameOver)
    else if t.phase == InProgress && t.turn.playerIndex == seat then GameModel.AdvanceTurn(t)
    else t
  }

  /** The id of the only player still in the game, or none. */
  ghost function ReportedWinner(t: State): string {
    var active := D.ActiveIndexes(t.players);
    if |active| == 1 then t.players[active[0]].id else ""
  }

  lemma ForfeitInSteps(s: State, id: string, shuffled: seq<Card>)
    requires 0 <= s.turn.playerIndex && (|s.players| > 0 ==> s.turn.playerIndex < |s.players|)
    ensures var i := SeatOf(s.players, id);
            if s.phase != InProgress && s.phase != RoundOver then
              Forfeit(s, id, shuffled) == Outcome(s, Some(GameNotInProgress))
            else if i == |s.players| then Forfeit(s, id, shuffled) == Outcome(s, Some(PlayerNotFound))
            else if s.players[i].forfeited then Forfeit(s, id, shuffled) == Outcome(s, Some(PlayerAlreadyForfeited))
            else
              |Without(s, i, shuffled).players| == |s.players| && Without(s, i, shuffled).turn == s.turn &&
              Forfeit(s, id, shuffled) == Outcome(Left(Without(s, i, shuffled), i), None)
  {
    hide NextForfeitOrder, RecordedAll, GameModel.AdvanceTurn, D.ActiveIndexes;
  }

  lemma NextRoundInSteps(s: State, dt: D.DealType, order: Option<seq<int>>, cut: int, deck: seq<Card>)
    requires 0 <= s.dealerIndex && (|s.players| > 0 ==> s.dealerIndex < |s.players|)
    ensures if s.phase != RoundOver then GameModel.StartNextRound(s, dt, order, cut, deck) ==
            Outcome(s, Some(CannotStartNextRound))
            else
              var flags := ActiveFlags(s.players);
              var dealer := NextOf(flags, s.dealerIndex);
              var r := GameModel.StartRound(Reset(s, deck), dealer, PreviousOf(flags, dealer), dt, order, cut);
              GameModel.StartNextRound(s, dt, order, cut, deck) ==
              if r.error.Some? then r else Outcome(r.state.(round := r.state.round + 1), None)
  {
    hide GameModel.StartRound, Reset, NextOf, PreviousOf;
  }

  ghost function Both(s: State, comps: seq<Comp>, additions: seq<Addition>, reclaims: seq<JokerReclaim>, index: int,
                      expected: Option<Card>): Outcome {
    var p := GameModel.PlayTable(s, comps, additions, reclaims);
    if p.error.Some? then p else Discard(p.state, index, expected)
  }

  lemma BothOnCopy(s: State, comps: seq<Comp>, additions: seq<Addition>, reclaims: seq<JokerReclaim>, index: int,
                   expected: Option<Card>)
    requires WellFormed(s)
    ensures var r := Both(Restored(s), comps, additions, reclaims, index, expected);
            PlayThenDiscard(s, comps, additions, reclaims, index, expected) == if r.error.Some? then Outcome(s,
                            r.error) else r
  {
    hide AllOk, GameModel.PlayTable, Discard, Restored;
  }

  lemma CleanupStart(pile: seq<Card>)
    ensures RemoveCompleted([], pile) == Cleanup([], pile)
  {
  }

  lemma CleanupStep(table: seq<Comp>, i: nat, pile: seq<Card>)
    requires i < |table|
    ensures var r, c := RemoveCompleted(table[..i], pile), table[i];
            RemoveCompleted(table[..i + 1], pile) ==
            if Complete(c.variant, c.cards) then r.(discardPile := c.cards + r.discardPile)
            else r.(table := r.table + [c])
  {
    hide Complete;
    assert table[..i + 1][..i] == table[..i];
  }
}
