/** Whole games: every run of operations, in any order and with any outcome, keeps the invariant. */
module GameRuns {
  import opened Cards
  import opened Compositions
  import opened TablePlay
  import opened PlayedCards
  import opened Rotation
  import opened SpecialHands
  import opened RoundScoring
  import opened SearchPlays
  import opened DiscardSearch
  import opened GameModel
  import opened GameInvariants
  import opened GameRounds
  import opened Persistence
  import D = Dealing

  datatype Op =
    | Join(id: string)
    | Start(dealer: int, chooser: int, dt: D.DealType, order: Option<seq<int>>, cut: int, mode: Mode)
    | NextRound(dt: D.DealType, order: Option<seq<int>>, cut: int, deck: seq<Card>)
    | Draw
    | TakeDiscard(accepted: bool)
    | Play(comps: seq<Comp>, additions: seq<Addition>, reclaims: seq<JokerReclaim>)
    | DiscardCard(index: int, expected: Option<Card>)
    | PlayAndDiscard(comps: seq<Comp>, additions: seq<Addition>, reclaims: seq<JokerReclaim>, index: int,
                     expected: Option<Card>)
    | Leave(id: string, shuffled: seq<Card>)
    | End
    | Restart

  /** A table play and the discard on a restored copy; the copy replaces the game only if both succeed. */
  ghost function PlayThenDiscard(s: State, comps: seq<Comp>, additions: seq<Addition>, reclaims: seq<JokerReclaim>,
                                 index: int, expected: Option<Card>): Outcome
    requires AllOk(s.table)
  {
    var p := PlayTable(Restored(s), comps, additions, reclaims);
    if p.error.Some? then Outcome(s, p.error)
    else
      var d := Discard(p.state, index, expected);
      if d.error.Some? then Outcome(s, d.error) else d
  }

  /** What is left to chance or to code outside the game: shuffles, and the answer of the search. */
  ghost predicate Possible(s: State, op: Op) {
    match op
    case Join(id) => id != ""
    case NextRound(_, _, _, deck) => multiset(deck) == DoubleDeck()
    case TakeDiscard(accepted) =>
      accepted ==>
        s.discardPile != [] &&
        (s.phase == InProgress && HasCurrent(s) ==> CanUse(Tempted(s), s.table, s.discardPile[0]))
    case Play(comps, _, _) => AllOk(comps)
    case PlayAndDiscard(comps, _, _, _, _) => AllOk(comps)
    case Leave(id, shuffled) =>
      var i := SeatOf(s.players, id);
      i < |s.players| ==> multiset(shuffled) == multiset(s.drawPile) + multiset(s.players[i].hand)
    case _ => true
  }

  /** Seat numbers are in range and table compositions in order, as the source takes for granted. */
  ghost predicate WellFormed(s: State) {
    Seated(s) && AllOk(s.table)
  }

  ghost function After(s: State, op: Op): Outcome
    requires WellFormed(s) && Possible(s, op)
  {
    match op
    case Join(id) => AddPlayer(s, NewPlayer(id))
    case Start(dealer, chooser, dt, order, cut, mode) => StartGame(s, dealer, chooser, dt, order, cut, mode)
    case NextRound(dt, order, cut, deck) => StartNextRound(s, dt, order, cut, deck)
    case Draw => DrawFromDeck(s)
    case TakeDiscard(accepted) => DrawFromDiscard(s, accepted)
    case Play(comps, additions, reclaims) => PlayTable(s, comps, additions, reclaims)
    case DiscardCard(index, expected) => Discard(s, index, expected)
    case PlayAndDiscard(comps, additions, reclaims, index, expected) =>
      PlayThenDiscard(s, comps, additions, reclaims, index, expected)
    case Leave(id, shuffled) => Forfeit(s, id, shuffled)
    case End => EndWithoutWinner(s)
    case Restart => Outcome(Restored(s), None)
  }

  // ---------------------------------------------------------------- one step

  lemma DiscardClears(s: State, index: int, expected: Option<Card>)
    requires Discard(s, index, expected).error.None? && Inv(s)
    ensures !Discard(s, index, expected).state.turn.mustUseDiscardDraw
  {
    hide Inv, NextOf, ScoredPlayers, Adjusted, OthersOverLimit, MatchIndex, RemoveCompleted, WinsRound, OneSuit;
    SeatedInv(s);
  }

  lemma SeatedInv(s: State)
    requires Inv(s)
    ensures WellFormed(s)
  {
  }

  lemma PlayThenDiscardKeeps(s: State, comps: seq<Comp>, additions: seq<Addition>, reclaims: seq<JokerReclaim>,
                             index: int, expected: Option<Card>)
    requires Inv(s) && AllOk(comps)
    ensures Keeps(s, PlayThenDiscard(s, comps, additions, reclaims, index, expected).state)
  {
    hide Inv, Obligation, PlayTable, Discard, AllOk, Restored;
    SeatedInv(s);
    RestoredKeeps(s);
    PlayTableKeeps(Restored(s), comps, additions, reclaims);
    var p := PlayTable(Restored(s), comps, additions, reclaims);
    DiscardKeeps(p.state, index, expected);
    var d := Discard(p.state, index, expected);
    if d.error.None? {
      DiscardClears(p.state, index, expected);
      Kept(s, d.state);
    }
  }

  lemma StepKeeps(s: State, op: Op)
    requires Inv(s) && Possible(s, op)
    ensures Inv(After(s, op).state)
    ensures Obligation(s) && !op.Restart? ==> Obligation(After(s, op).state)
  {
    hide Inv, Obligation, Possible, AddPlayer, StartGame, StartNextRound, DrawFromDeck, DrawFromDiscard, PlayTable,
         Discard, PlayThenDiscard, Forfeit, EndWithoutWinner, Restored;
    match op
    case Join(id) => JoinStep(s, id);
    case Start(dealer, chooser, dt, order, cut, mode) => StartGameKeeps(s, dealer, chooser, dt, order, cut, mode);
    case NextRound(dt, order, cut, deck) => NextRoundStep(s, op);
    case Draw => DrawFromDeckKeeps(s);
    case TakeDiscard(accepted) => TakeStep(s, accepted);
    case Play(comps, additions, reclaims) => PlayStep(s, op);
    case DiscardCard(index, expected) => DiscardKeeps(s, index, expected);
    case PlayAndDiscard(comps, additions, reclaims, index, expected) => PlayStep(s, op);
    case Leave(id, shuffled) => LeaveStep(s, op);
    case End => EndKeeps(s);
    case Restart => RestoredKeeps(s);
  }

  lemma JoinStep(s: State, id: string)
    requires Inv(s) && Possible(s, Join(id))
    ensures Keeps(s, AddPlayer(s, NewPlayer(id)).state)
  {
    hide Inv, Keeps;
    AddPlayerKeeps(s, id);
  }

  lemma NextRoundStep(s: State, op: Op)
    requires Inv(s) && Possible(s, op) && op.NextRound?
    ensures Keeps(s, After(s, op).state)
  {
    hide Inv, Keeps, StartNextRound;
    StartNextRoundKeeps(s, op.dt, op.order, op.cut, op.deck);
  }

  lemma TakeStep(s: State, accepted: bool)
    requires Inv(s) && Possible(s, TakeDiscard(accepted))
    ensures Keeps(s, DrawFromDiscard(s, accepted).state)
  {
    hide Keeps, CanUse, Conserved, Seated, TwoActive, TotalsWithinLimit, HandSizes, Held, DrawFromDiscard;
    DrawFromDiscardKeeps(s, accepted);
  }

  lemma PlayStep(s: State, op: Op)
    requires Inv(s) && Possible(s, op) && (op.Play? || op.PlayAndDiscard?)
    ensures Keeps(s, After(s, op).state)
  {
    hide Inv, Keeps, PlayTable, PlayThenDiscard, AllOk;
    SeatedInv(s);
    if op.Play? {
      PlayTableKeeps(s, op.comps, op.additions, op.reclaims);
    } else {
      PlayThenDiscardKeeps(s, op.comps, op.additions, op.reclaims, op.index, op.expected);
    }
  }

  lemma LeaveStep(s: State, op: Op)
    requires Inv(s) && Possible(s, op) && op.Leave?
    ensures Keeps(s, After(s, op).state)
  {
    hide Inv, Keeps, Forfeit;
    SeatedInv(s);
    ForfeitKeeps(s, op.id, op.shuffled);
  }

  // ---------------------------------------------------------------- whole runs

  ghost predicate Step(s: State, op: Op, t: State)
    requires WellFormed(s)
  {
    Possible(s, op) && t == After(s, op).state
  }

  /** The states of a game and the operations between them, from a new game with a shuffled deck. Nothing
      is said of what follows a state that is not well formed; the invariant shows there is none. */
  ghost predicate Run(states: seq<State>, ops: seq<Op>) {
    && |states| == |ops| + 1
    && (exists deck :: multiset(deck) == DoubleDeck() && states[0] == NewGame(deck))
    && forall i :: 0 <= i < |ops| && WellFormed(states[i]) ==> Step(states[i], ops[i], states[i + 1])
  }

  lemma NewGameHolds(deck: seq<Card>)
    requires multiset(deck) == DoubleDeck()
    ensures Inv(NewGame(deck)) && !NewGame(deck).turn.mustUseDiscardDraw
  {
    var s := NewGame(deck);
    assert AllCards(s) == multiset(deck);
  }

  /** In every state of every run all 108 cards are in place, hands and totals are within their bounds,
      at least two players are active while a round is on, and penalties balance. */
  lemma {:induction false} EveryRunKeepsTheInvariant(states: seq<State>, ops: seq<Op>, i: nat)
    requires Run(states, ops) && i < |states|
    ensures Inv(states[i])
  {
    hide Inv, Possible, After, NewGame, DoubleDeck;
    if i == 0 {
      var deck :| multiset(deck) == DoubleDeck() && states[0] == NewGame(deck);
      NewGameHolds(deck);
    } else {
      EveryRunKeepsTheInvariant(states, ops, i - 1);
      SeatedInv(states[i - 1]);
      assert Step(states[i - 1], ops[i - 1], states[i]);
      StepKeeps(states[i - 1], ops[i - 1]);
    }
  }

  // ---------------------------------------------------------------- what the invariant means for callers

  /** A draw that is due never fails for lack of cards. */
  lemma DeckNeverRunsOut(states: seq<State>, ops: seq<Op>, i: nat)
    requires Run(states, ops) && i < |states|
    ensures states[i].phase == InProgress && !states[i].turn.hasDrawn ==> DrawFromDeck(states[i]).error.None?
  {
    EveryRunKeepsTheInvariant(states, ops, i);
    DrawFromDeckKeeps(states[i]);
  }

  /** When the discard may be taken, hand, discard and one joker make at most 14 mask bits. */
  lemma MasksStaySmall(states: seq<State>, ops: seq<Op>, i: nat)
    requires Run(states, ops) && i < |states|
    ensures var s := states[i];
            s.phase == InProgress && !s.turn.hasDrawn ==>
              HasCurrent(s) && AllOk(s.table) && 1 <= |s.players[s.turn.playerIndex].hand| &&
              |s.players[s.turn.playerIndex].hand| + 2 <= 14 <= MAX_SEARCH_HAND
  {
    EveryRunKeepsTheInvariant(states, ops, i);
    hide Run, Held, TwoActive, TotalsWithinLimit, CompOk;
  }
}
