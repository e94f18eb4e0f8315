/** The game as a value and what each operation of state.go makes of it. */
module GameModel {
  import opened Cards
  import opened Compositions
  import CompositionObjects
  import opened Piles
  import opened TablePlay
  import opened PlayedCards
  import opened Rotation
  import opened SpecialHands
  import opened RoundScoring
  import D = Dealing

  datatype Phase = Lobby | InProgress | RoundOver | GameOver

  datatype Mode = Full | Quick | UnknownMode

  datatype Turn = Turn(number: int, playerIndex: int, hasDrawn: bool, mustUseDiscardDraw: bool,
                       discardDrawCard: Option<Card>)

  datatype State = State(
    players: seq<Player>, table: seq<Comp>, drawPile: seq<Card>, discardPile: seq<Card>, maxPlayers: int,
    phase: Phase, round: int, dealerIndex: int, turn: Turn, roundWinnerIndex: int, mode: Mode)

  datatype GameError =
    | GameInProgress | GameNotInProgress | CannotStartNextRound | InvalidGameMode
    | GameFull | PlayerExists | NotEnoughPlayers | NoPlayers | PlayerNotFound | PlayerAlreadyForfeited
    | PlayerAlreadyDrew | PlayerHasntDrawn | NotEnoughCardsInDrawPile | CannotTakeDiscardCard
    | MustUseDrawnDiscardCard | RemovingCard | InvalidDealer | InvalidDealChooser | InvalidDealingOrder
    | Table(play: PlayError) | Deal(deal: D.DealError)

  /** An operation may leave a changed state behind even when it reports an error. */
  datatype Outcome = Outcome(state: State, error: Option<GameError>)

  const FIRST_TURN := Turn(1, 0, false, false, None)

  function NewGame(deck: seq<Card>): State {
    State([], [], deck, [], 4, Lobby, 1, 0, FIRST_TURN, -1, Full)
  }

  /** The player to move, or why there is none. */
  predicate HasCurrent(s: State) {
    0 <= s.turn.playerIndex < |s.players| && !s.players[s.turn.playerIndex].forfeited
  }

  function CurrentError(s: State): GameError {
    if |s.players| == 0 then NoPlayers else PlayerNotFound
  }

  function Cleared(t: Turn): Turn {
    t.(mustUseDiscardDraw := false, discardDrawCard := None)
  }

  function WithHand(s: State, i: int, hand: seq<Card>): State
    requires 0 <= i < |s.players|
  {
    s.(players := s.players[i := s.players[i].(hand := hand)])
  }

  // ---------------------------------------------------------------- drawing

  /** An empty draw pile is refilled from the discards below the top one, turned over. */
  function Recycled(s: State): State {
    if s.drawPile != [] || |s.discardPile| <= 1 then s
    else s.(drawPile := Reversed(s.discardPile[1..]), discardPile := s.discardPile[..1])
  }

  function DrawFromDeck(s: State): Outcome {
    if s.phase != InProgress then Outcome(s, Some(GameNotInProgress))
    else if !HasCurrent(s) then Outcome(s, Some(CurrentError(s)))
    else if s.turn.hasDrawn then Outcome(s, Some(PlayerAlreadyDrew))
    else
      var r := Recycled(s);
      if r.drawPile == [] then Outcome(r, Some(NotEnoughCardsInDrawPile))
      else
        var i := s.turn.playerIndex;
        var drawn := WithHand(r, i, r.players[i].hand + [r.drawPile[0]]);
        Outcome(drawn.(drawPile := r.drawPile[1..], turn := Cleared(r.turn).(hasDrawn := true)), None)
  }

  /** `accepted` is the answer of the discard search. */
  function DrawFromDiscard(s: State, accepted: bool): Outcome
    requires accepted ==> s.discardPile != []
  {
    if s.phase != InProgress then Outcome(s, Some(GameNotInProgress))
    else if !HasCurrent(s) then Outcome(s, Some(CurrentError(s)))
    else if s.turn.hasDrawn then Outcome(s, Some(PlayerAlreadyDrew))
    else if !accepted then Outcome(s, Some(CannotTakeDiscardCard))
    else
      var i, card := s.turn.playerIndex, s.discardPile[0];
      Outcome(WithHand(s, i, s.players[i].hand + [card])
              .(discardPile := s.discardPile[1..],
                turn := s.turn.(hasDrawn := true, mustUseDiscardDraw := true, discardDrawCard := Some(card))), None)
  }

  // ---------------------------------------------------------------- playing on the table

  function Opened(p: Player, turnNumber: int): Statistics {
    var s := p.statistics;
    if p.hasOpened then s
    else
      s.(roundsOpened := s.roundsOpened + 1,
         fastestOpeningTurn := if s.fastestOpeningTurn == 0 || turnNumber < s.fastestOpeningTurn then turnNumber
                               else s.fastestOpeningTurn)
  }

  function AfterPlay(s: State, next: TableState): State
    requires HasCurrent(s)
  {
    var i := s.turn.playerIndex;
    var p := s.players[i];
    var played := p.(hand := next.hand, hasOpened := next.hasOpened, statistics := Opened(p, s.turn.number));
    s.(players := s.players[i := played], table := next.table, turn := s.turn.(mustUseDiscardDraw := false))
  }

  ghost function PlayTable(s: State, comps: seq<Comp>, additions: seq<Addition>, reclaims: seq<JokerReclaim>): Outcome {
    if s.phase != InProgress then Outcome(s, Some(GameNotInProgress))
    else if !s.turn.hasDrawn then Outcome(s, Some(PlayerHasntDrawn))
    else if comps == [] && additions == [] && reclaims == [] then Outcome(s, Some(Table(InvalidComposition)))
    else if !HasCurrent(s) then Outcome(s, Some(CurrentError(s)))
    else
      var p := s.players[s.turn.playerIndex];
      var next := ApplyTablePlay(TableState(p.hand, s.table, p.hasOpened), comps, additions, reclaims);
      if next.Failure? then Outcome(s, Some(Table(next.error)))
      else if s.turn.mustUseDiscardDraw && !(s.turn.discardDrawCard.Some? &&
                                             UsesCard(comps, additions, reclaims, s.turn.discardDrawCard.value))
      then Outcome(s, Some(MustUseDrawnDiscardCard))
      else Outcome(AfterPlay(s, next.value), None)
  }

  // ---------------------------------------------------------------- discarding

  /** The given index if it holds the expected card, else the first card that does, else -1. */
  function MatchIndex(hand: seq<Card>, index: int, expected: Option<Card>): int {
    if expected.None? || (0 <= index < |hand| && hand[index] == expected.value) then index
    else
      var k := FirstIndex(hand, expected.value);
      if k < |hand| then k else -1
  }

  datatype Cleanup = Cleanup(table: seq<Comp>, discardPile: seq<Card>)

  /** Complete compositions leave the table; their cards go on the discard pile in order. */
  ghost function RemoveCompleted(table: seq<Comp>, pile: seq<Card>): Cleanup {
    if table == [] then Cleanup([], pile)
    else
      var k := |table| - 1;
      var r, c := RemoveCompleted(table[..k], pile), table[k];
      if CompositionObjects.Complete(c.variant, c.cards) then r.(discardPile := c.cards + r.discardPile)
      else r.(table := r.table + [c])
  }

  ghost function FinishRound(s: State, winner: int): State
    requires 0 <= winner < |s.players|
  {
    var scored := ScoredPlayers(s.players, s.round, winner);
    var t := s.(roundWinnerIndex := winner, turn := Cleared(s.turn).(hasDrawn := false));
    if s.mode == Quick || OthersOverLimit(scored, winner) then t.(players := scored, phase := GameOver)
    else t.(players := Adjusted(scored), phase := RoundOver)
  }

  ghost function AdvanceTurn(s: State): State
    requires 0 <= s.turn.playerIndex < |s.players|
  {
    var next := NextOf(ActiveFlags(s.players), s.turn.playerIndex);
    Recycled(s.(turn := Turn(s.turn.number + 1, next, false, false, None)))
  }

  ghost function Discarded(s: State, i: int, k: int): State
    requires 0 <= i < |s.players| && 0 <= k < |s.players[i].hand|
  {
    var hand := s.players[i].hand;
    var c := RemoveCompleted(s.table, s.discardPile);
    WithHand(s, i, WithoutAt(hand, k)).(table := c.table, discardPile := [hand[k]] + c.discardPile)
  }

  ghost predicate WinsRound(hand: seq<Card>) {
    hand == [] || OneSuit(hand) || SixPairs(hand)
  }

  ghost function Discard(s: State, index: int, expected: Option<Card>): Outcome {
    if s.phase != InProgress then Outcome(s, Some(GameNotInProgress))
    else if !s.turn.hasDrawn then Outcome(s, Some(PlayerHasntDrawn))
    else if s.turn.mustUseDiscardDraw then Outcome(s, Some(MustUseDrawnDiscardCard))
    else if !HasCurrent(s) then Outcome(s, Some(CurrentError(s)))
    else
      var i := s.turn.playerIndex;
      var k := MatchIndex(s.players[i].hand, index, expected);
      if !(0 <= k < |s.players[i].hand|) then Outcome(s, Some(RemovingCard))
      else
        var d := Discarded(s, i, k);
        Outcome(if WinsRound(d.players[i].hand) then FinishRound(d, i) else AdvanceTurn(d), None)
  }

  // ---------------------------------------------------------------- rounds

  function Reset(s: State, drawPile: seq<Card>): State {
    s.(players := seq(|s.players|, i requires 0 <= i < |s.players| =>
         s.players[i].(hand := [], pointsGained := 0, unadjustedTotalPoints := s.players[i].totalPoints,
                       hasOpened := false)),
       table := [], drawPile := drawPile, discardPile := [], phase := Lobby, roundWinnerIndex := -1, turn := FIRST_TURN)
  }

  function CountRound(players: seq<Player>): (r: seq<Player>)
    ensures |r| == |players|
  {
    seq(|players|, i requires 0 <= i < |players| =>
      if players[i].forfeited then players[i]
      else players[i].(statistics := players[i].statistics.(roundsPlayed := players[i].statistics.roundsPlayed + 1)))
  }

  /** The first player dealt a winning hand, or the number of players. */
  ghost function FirstSpecial(players: seq<Player>): (i: nat)
    ensures i <= |players|
    ensures i < |players| ==> !players[i].forfeited && (OneSuit(players[i].hand) || SixPairs(players[i].hand))
  {
    if players == [] then 0
    else
      var k := |players| - 1;
      var i := FirstSpecial(players[..k]);
      if i < k || (!players[k].forfeited && (OneSuit(players[k].hand) || SixPairs(players[k].hand))) then i else k + 1
  }

  ghost function StartRound(s: State, dealer: int, chooser: int, dt: D.DealType, order: Option<seq<int>>,
                            cut: int): Outcome {
    var active := D.ActiveIndexes(s.players);
    if |active| < 2 then Outcome(s, Some(NotEnoughPlayers))
    else if !IsActive(ActiveFlags(s.players), dealer) then Outcome(s, Some(InvalidDealer))
    else if chooser != PreviousOf(ActiveFlags(s.players), dealer) then Outcome(s, Some(InvalidDealChooser))
    else if dt == D.InBlocks && order.None? then Outcome(s, Some(InvalidDealingOrder))
    else if |s.drawPile| < INITIAL_HAND_SIZE * |active| + 1 then Outcome(s, Some(NotEnoughCardsInDrawPile))
    else
      var d := D.InitialDeal(s.players, s.drawPile, dt, order, dealer, cut);
      if d.Failure? then Outcome(s.(dealerIndex := dealer), Some(Deal(d.error)))
      else Outcome(Dealt(s, dealer, d.value), None)
  }

  /** After the deal the top card starts the discard pile; a winning hand ends the round at once. */
  ghost function Dealt(s: State, dealer: int, d: D.Dealt): State
    requires |d.players| == |s.players| && |d.pile| > 0 && 0 <= dealer < |s.players|
  {
    var players := CountRound(d.players);
    var r := s.(players := players, dealerIndex := dealer, drawPile := d.pile[1..],
                discardPile := [d.pile[0]] + s.discardPile);
    var special := FirstSpecial(players);
    if special < |players| then FinishRound(r, special)
    else r.(phase := InProgress, turn := r.turn.(playerIndex := NextOf(ActiveFlags(players), dealer)))
  }

  ghost function StartGame(s: State, dealer: int, chooser: int, dt: D.DealType, order: Option<seq<int>>, cut: int,
                           mode: Mode): Outcome {
    if s.phase != Lobby then Outcome(s, Some(GameInProgress))
    else if mode == UnknownMode then Outcome(s, Some(InvalidGameMode))
    else StartRound(Reset(s, s.drawPile).(mode := mode), dealer, chooser, dt, order, cut)
  }

  /** The deal passes to the next active player, and the one before cuts. */
  ghost function NextDeal(s: State, dt: D.DealType, order: Option<seq<int>>, cut: int, deck: seq<Card>): Outcome
    requires 0 <= s.dealerIndex && (|s.players| > 0 ==> s.dealerIndex < |s.players|)
  {
    var flags := ActiveFlags(s.players);
    var dealer := NextOf(flags, s.dealerIndex);
    StartRound(Reset(s, deck), dealer, PreviousOf(flags, dealer), dt, order, cut)
  }

  /** `deck` is the freshly shuffled deck. A deal that fails leaves the reset state behind. */
  ghost function StartNextRound(s: State, dt: D.DealType, order: Option<seq<int>>, cut: int, deck: seq<Card>): Outcome
    requires 0 <= s.dealerIndex && (|s.players| > 0 ==> s.dealerIndex < |s.players|)
  {
    if s.phase != RoundOver then Outcome(s, Some(CannotStartNextRound))
    else
      var r := NextDeal(s, dt, order, cut, deck);
      if r.error.Some? then r else Outcome(r.state.(round := r.state.round + 1), None)
  }

  // ---------------------------------------------------------------- players come and go

  function AddPlayer(s: State, p: Player): Outcome {
    if s.phase != Lobby then Outcome(s, Some(GameInProgress))
    else if |s.players| >= s.maxPlayers then Outcome(s, Some(GameFull))
    else if exists i :: 0 <= i < |s.players| && s.players[i].id == p.id then Outcome(s, Some(PlayerExists))
    else Outcome(s.(players := s.players + [p]), None)
  }

  /** The first seat with this id, or the number of players. */
  function SeatOf(players: seq<Player>, id: string): (i: nat)
    ensures i <= |players| && (i < |players| ==> players[i].id == id)
    ensures forall j :: 0 <= j < i ==> players[j].id != id
  {
    if players == [] then 0
    else
      var k := |players| - 1;
      var i := SeatOf(players[..k], id);
      if i < k || players[k].id == id then i else k + 1
  }

  /** One more than the largest forfeit order of the other players. */
  function NextForfeitOrder(players: seq<Player>, seat: int): (r: int)
    ensures r >= 1 && forall i :: 0 <= i < |players| && i != seat ==> players[i].statistics.forfeitOrder < r
  {
    if players == [] then 1
    else
      var k := |players| - 1;
      var r := NextForfeitOrder(players[..k], seat);
      if k != seat && players[k].statistics.forfeitOrder >= r then players[k].statistics.forfeitOrder + 1 else r
  }

  function Out(p: Player, order: int): Player {
    p.(hand := [], pointsGained := 0, unadjustedTotalPoints := p.totalPoints, forfeited := true,
       statistics := p.statistics.(forfeitOrder := order))
  }

  function RecordedAll(players: seq<Player>, round: int, winner: int): (r: seq<Player>)
    ensures |r| == |players|
  {
    seq(|players|, i requires 0 <= i < |players| =>
      if players[i].statistics.roundsPlayed >= round
      then players[i].(statistics := Recorded(players[i].statistics, round, i == winner)) else players[i])
  }

  /** `shuffled` is the draw pile with the forfeited hand mixed in, if there was one. */
  ghost function Forfeit(s: State, id: string, shuffled: seq<Card>): Outcome
    requires 0 <= s.turn.playerIndex && (|s.players| > 0 ==> s.turn.playerIndex < |s.players|)
  {
    if s.phase != InProgress && s.phase != RoundOver then Outcome(s, Some(GameNotInProgress))
    else
      var i := SeatOf(s.players, id);
      if i == |s.players| then Outcome(s, Some(PlayerNotFound))
      else if s.players[i].forfeited then Outcome(s, Some(PlayerAlreadyForfeited))
      else
        var players := s.players[i := Out(s.players[i], NextForfeitOrder(s.players, i))];
        var t := s.(players := players, drawPile := if s.players[i].hand == [] then s.drawPile else shuffled);
        var active := D.ActiveIndexes(players);
        if |active| == 1 then
          Outcome(t.(players := RecordedAll(players, s.round, active[0]), roundWinnerIndex := active[0],
                     phase := GameOver,
                     turn := Cleared(s.turn).(hasDrawn := false)), None)
        else if s.phase == InProgress && s.turn.playerIndex == i then Outcome(AdvanceTurn(t), None)
        else Outcome(t, None)
  }

  function EndWithoutWinner(s: State): Outcome {
    if s.phase != InProgress && s.phase != RoundOver then Outcome(s, Some(GameNotInProgress))
    else Outcome(s.(phase := GameOver, roundWinnerIndex := -1, turn := Cleared(s.turn).(hasDrawn := false)), None)
  }
}
