/** Saving a game as a snapshot and restoring it (persistence.go). */
module Persistence {
  import opened Cards
  import opened RunSpec
  import opened RunLayout
  import opened Compositions
  import opened CompositionObjects
  import opened TablePlay
  import opened RoundScoring
  import opened GameModel
  import opened GameInvariants
  import D = Dealing

  const SNAPSHOT_VERSION := 1

  datatype CardSnapshot = CardSnapshot(isJoker: bool, rank: int, suit: int)

  datatype CompSnapshot = CompSnapshot(variant: string, cards: seq<CardSnapshot>)

  datatype PlayerSnapshot = PlayerSnapshot(
    id: string, hand: seq<CardSnapshot>, totalPoints: int, pointsGained: int, unadjustedTotalPoints: int,
    hasOpened: bool, forfeited: bool, statistics: Statistics)

  datatype TurnSnapshot = TurnSnapshot(
    number: int, playerIndex: int, hasDrawn: bool, mustUseDiscardDraw: bool, discardDrawCard: Option<CardSnapshot>)

  datatype Snapshot = Snapshot(
    version: int, gameMode: string, players: seq<PlayerSnapshot>, comps: seq<CompSnapshot>,
    drawPile: seq<CardSnapshot>, discardPile: seq<CardSnapshot>, maxPlayers: int, phase: int, round: int,
    dealerIndex: int, turn: TurnSnapshot, roundWinnerIndex: int)

  datatype RestoreError =
    | BadVersion | BadMaxPlayers | BadRound | BadPhase | BadMode | MissingPlayerId | DuplicatePlayerId
    | BadRank | BadSuit | TooManyPlayers | MissingPlayers | BadComposition | BadTurnNumber | BadTurnPlayer
    | MissingDiscardCard | BadDealer | BadWinner

  // ---------------------------------------------------------------- taking a snapshot

  function SuitNumber(s: Suit): int {
    match s case Hearts => 0 case Diamonds => 1 case Clubs => 2 case Spades => 3
  }

  function CardSnap(c: Card): CardSnapshot {
    if c.Joker? then CardSnapshot(true, 0, 0) else CardSnapshot(false, c.rank, SuitNumber(c.suit))
  }

  function CardSnaps(cards: seq<Card>): (r: seq<CardSnapshot>)
    ensures |r| == |cards|
  {
    seq(|cards|, i requires 0 <= i < |cards| => CardSnap(cards[i]))
  }

  function PlayerSnap(p: Player): PlayerSnapshot {
    PlayerSnapshot(p.id, CardSnaps(p.hand), p.totalPoints, p.pointsGained, p.unadjustedTotalPoints, p.hasOpened,
                   p.forfeited, p.statistics)
  }

  function VariantName(v: Variant): string {
    match v case Set => "set" case Run => "run"
  }

  function CompSnap(c: Comp): CompSnapshot {
    CompSnapshot(VariantName(c.variant), CardSnaps(c.cards))
  }

  function TurnSnap(t: Turn): TurnSnapshot {
    TurnSnapshot(t.number, t.playerIndex, t.hasDrawn, t.mustUseDiscardDraw,
                 if t.mustUseDiscardDraw && t.discardDrawCard.Some? then Some(CardSnap(t.discardDrawCard.value))
                 else None)
  }

  function ModeName(m: Mode): string {
    match m case Full => "full" case Quick => "quick" case UnknownMode => "full"
  }

  function PhaseNumber(p: Phase): int {
    match p case Lobby => 0 case InProgress => 1 case RoundOver => 2 case GameOver => 3
  }

  function PlayerSnaps(players: seq<Player>): (r: seq<PlayerSnapshot>)
    ensures |r| == |players| && forall i :: 0 <= i < |r| ==> r[i] == PlayerSnap(players[i])
  {
    seq(|players|, i requires 0 <= i < |players| => PlayerSnap(players[i]))
  }

  function CompSnaps(table: seq<Comp>): (r: seq<CompSnapshot>)
    ensures |r| == |table| && forall i :: 0 <= i < |r| ==> r[i] == CompSnap(table[i])
  {
    seq(|table|, i requires 0 <= i < |table| => CompSnap(table[i]))
  }

  /** Representations of jokers are not saved, and the drawn discard only while it must be used. */
  function SnapshotOf(s: State): Snapshot {
    Snapshot(SNAPSHOT_VERSION, ModeName(s.mode), PlayerSnaps(s.players), CompSnaps(s.table),
             CardSnaps(s.drawPile), CardSnaps(s.discardPile), s.maxPlayers, PhaseNumber(s.phase), s.round,
             s.dealerIndex, TurnSnap(s.turn), s.roundWinnerIndex)
  }

  method SnapshotCards(cards: seq<Card>) returns (r: seq<CardSnapshot>)
    ensures r == CardSnaps(cards)
  {
    r := [];
    for i := 0 to |cards|
      invariant r == CardSnaps(cards)[..i]
    {
      r := r + [CardSnap(cards[i])];
    }
  }

  method TakeSnapshot(s: State) returns (r: Snapshot)
    ensures r == SnapshotOf(s)
  {
    var players: seq<PlayerSnapshot> := [];
    for i := 0 to |s.players|
      invariant players == PlayerSnaps(s.players)[..i]
    {
      var p := s.players[i];
      var hand := SnapshotCards(p.hand);
      players := players + [PlayerSnapshot(p.id, hand, p.totalPoints, p.pointsGained, p.unadjustedTotalPoints,
                                           p.hasOpened, p.forfeited, p.statistics)];
    }
    var comps: seq<CompSnapshot> := [];
    for i := 0 to |s.table|
      invariant comps == CompSnaps(s.table)[..i]
    {
      var cards := SnapshotCards(s.table[i].cards);
      comps := comps + [CompSnapshot(VariantName(s.table[i].variant), cards)];
    }
    var turn := TurnSnap(s.turn);
    var drawPile := SnapshotCards(s.drawPile);
    var discardPile := SnapshotCards(s.discardPile);
    return Snapshot(SNAPSHOT_VERSION, ModeName(s.mode), players, comps, drawPile, discardPile, s.maxPlayers,
                    PhaseNumber(s.phase), s.round, s.dealerIndex, turn, s.roundWinnerIndex);
  }

  // ---------------------------------------------------------------- restoring

  function RestoreCard(s: CardSnapshot): Result<Card, RestoreError> {
    if s.isJoker then Success(Joker)
    else if s.rank < ACE || s.rank > KING then Failure(BadRank)
    else if s.suit < 0 || s.suit > 3 then Failure(BadSuit)
    else Success(Natural(s.rank, SUITS[s.suit]))
  }

  function RestoreCards(snapshots: seq<CardSnapshot>): Result<seq<Card>, RestoreError> {
    if snapshots == [] then Success([])
    else
      var k := |snapshots| - 1;
      var front := RestoreCards(snapshots[..k]);
      if front.Failure? then front
      else
        var c := RestoreCard(snapshots[k]);
        if c.Failure? then Failure(c.error) else Success(front.value + [c.value])
  }

  function SeenId(snapshots: seq<PlayerSnapshot>, id: string): bool {
    exists i :: 0 <= i < |snapshots| && snapshots[i].id == id
  }

  function RestorePlayer(p: PlayerSnapshot, before: seq<PlayerSnapshot>): Result<Player, RestoreError> {
    if p.id == "" then Failure(MissingPlayerId)
    else if SeenId(before, p.id) then Failure(DuplicatePlayerId)
    else
      var hand := RestoreCards(p.hand);
      if hand.Failure? then Failure(hand.error)
      else Success(Player(p.id, hand.value, p.totalPoints, p.pointsGained, p.unadjustedTotalPoints, p.hasOpened,
                          p.forfeited, p.statistics))
  }

  function RestorePlayers(snapshots: seq<PlayerSnapshot>): Result<seq<Player>, RestoreError> {
    if snapshots == [] then Success([])
    else
      var k := |snapshots| - 1;
      var front := RestorePlayers(snapshots[..k]);
      if front.Failure? then front
      else
        var p := RestorePlayer(snapshots[k], snapshots[..k]);
        if p.Failure? then Failure(p.error) else Success(front.value + [p.value])
  }

  /** Compositions are built anew: laid out again and given their joker representations again. */
  ghost function RestoreComp(c: CompSnapshot): Result<Comp, RestoreError> {
    var cards := RestoreCards(c.cards);
    if cards.Failure? then Failure(cards.error)
    else if c.variant != "set" && c.variant != "run" then Failure(BadComposition)
    else
      var comp := MakeComp(cards.value, if c.variant == "set" then Set else Run, false);
      if comp.None? then Failure(BadComposition) else Success(comp.value)
  }

  ghost function RestoreComps(snapshots: seq<CompSnapshot>): Result<seq<Comp>, RestoreError> {
    if snapshots == [] then Success([])
    else
      var k := |snapshots| - 1;
      var front := RestoreComps(snapshots[..k]);
      if front.Failure? then front
      else
        var c := RestoreComp(snapshots[k]);
        if c.Failure? then Failure(c.error) else Success(front.value + [c.value])
  }

  function AtLeastOne(n: nat): nat {
    if n == 0 then 1 else n
  }

  function RestoreTurn(t: TurnSnapshot, playerCount: nat): Result<Turn, RestoreError> {
    if t.number <= 0 then Failure(BadTurnNumber)
    else if t.playerIndex < 0 || t.playerIndex >= AtLeastOne(playerCount) then Failure(BadTurnPlayer)
    else if !t.mustUseDiscardDraw then Success(Turn(t.number, t.playerIndex, t.hasDrawn, false, None))
    else if t.discardDrawCard.None? then Failure(MissingDiscardCard)
    else
      var c := RestoreCard(t.discardDrawCard.value);
      if c.Failure? then Failure(c.error) else Success(Turn(t.number, t.playerIndex, t.hasDrawn, true, Some(c.value)))
  }

  function ModeOf(name: string): Mode {
    if name == "" || name == "full" then Full else if name == "quick" then Quick else UnknownMode
  }

  function PhaseOf(n: int): Phase
    requires 0 <= n <= 3
  {
    if n == 0 then Lobby else if n == 1 then InProgress else if n == 2 then RoundOver else GameOver
  }

  /** The checks before any card is looked at. */
  function HeaderError(s: Snapshot): Option<RestoreError> {
    if s.version != SNAPSHOT_VERSION then Some(BadVersion)
    else if s.maxPlayers <= 0 then Some(BadMaxPlayers)
    else if s.round <= 0 then Some(BadRound)
    else if s.phase < 0 || s.phase > 3 then Some(BadPhase)
    else if ModeOf(s.gameMode) == UnknownMode then Some(BadMode)
    else None
  }

  datatype Parts = Parts(players: seq<Player>, table: seq<Comp>, drawPile: seq<Card>, discardPile: seq<Card>,
                         turn: Turn)

  ghost function RestoreParts(s: Snapshot): Result<Parts, RestoreError>
    requires 0 <= s.phase <= 3
  {
    var players := RestorePlayers(s.players);
    if players.Failure? then Failure(players.error)
    else if |players.value| > s.maxPlayers then Failure(TooManyPlayers)
    else if s.phase != 0 && players.value == [] then Failure(MissingPlayers)
    else
      var table := RestoreComps(s.comps);
      if table.Failure? then Failure(table.error)
      else
        var draw := RestoreCards(s.drawPile);
        if draw.Failure? then Failure(draw.error)
        else
          var discard := RestoreCards(s.discardPile);
          if discard.Failure? then Failure(discard.error)
          else
            var turn := RestoreTurn(s.turn, |players.value|);
            if turn.Failure? then Failure(turn.error)
            else Success(Parts(players.value, table.value, draw.value, discard.value, turn.value))
  }

  ghost function Restore(s: Snapshot): Result<State, RestoreError> {
    if HeaderError(s).Some? then Failure(HeaderError(s).value)
    else
      var r := RestoreParts(s);
      if r.Failure? then Failure(r.error)
      else
        var p := r.value;
        if s.dealerIndex < 0 || s.dealerIndex >= AtLeastOne(|p.players|) then Failure(BadDealer)
        else if s.roundWinnerIndex < -1 || s.roundWinnerIndex >= AtLeastOne(|p.players|) then Failure(BadWinner)
        else Success(State(p.players, p.table, p.drawPile, p.discardPile, s.maxPlayers, PhaseOf(s.phase), s.round,
                           s.dealerIndex, p.turn, s.roundWinnerIndex, ModeOf(s.gameMode)))
  }

  // ---------------------------------------------------------------- the round trip

  lemma CardRoundTrip(c: Card)
    ensures RestoreCard(CardSnap(c)) == Success(c)
  {
  }

  lemma {:induction false} CardsRoundTrip(cards: seq<Card>)
    ensures RestoreCards(CardSnaps(cards)) == Success(cards)
  {
    if cards != [] {
      var k := |cards| - 1;
      CardsRoundTrip(cards[..k]);
      assert CardSnaps(cards)[..k] == CardSnaps(cards[..k]);
      CardRoundTrip(cards[k]);
      assert cards == cards[..k] + [cards[k]];
    }
  }

  lemma {:induction false} PlayersRoundTrip(players: seq<Player>)
    requires DistinctIds(players) && forall i :: 0 <= i < |players| ==> players[i].id != ""
    ensures RestorePlayers(PlayerSnaps(players)) == Success(players)
  {
    if players != [] {
      var k := |players| - 1;
      PlayersRoundTrip(players[..k]);
      var snaps := PlayerSnaps(players);
      assert snaps[..k] == PlayerSnaps(players[..k]);
      CardsRoundTrip(players[k].hand);
      assert players == players[..k] + [players[k]];
    }
  }

  /** What a table composition becomes: the same variant and cards, laid out again. */
  ghost function Remade(c: Comp): Comp
    requires ValidCards(c.variant, c.cards)
  {
    MakeComp(c.cards, c.variant, false).value
  }

  ghost function RemadeAll(table: seq<Comp>): (r: seq<Comp>)
    requires AllOk(table)
    ensures |r| == |table| && forall i :: 0 <= i < |r| ==> r[i] == Remade(table[i])
  {
    seq(|table|, i requires 0 <= i < |table| => Remade(table[i]))
  }

  lemma CompRoundTrip(c: Comp)
    requires CompOk(c)
    ensures RestoreComp(CompSnap(c)) == Success(Remade(c))
  {
    CardsRoundTrip(c.cards);
  }

  lemma {:induction false} TableRoundTrip(table: seq<Comp>)
    requires AllOk(table)
    ensures RestoreComps(CompSnaps(table)) == Success(RemadeAll(table))
  {
    hide CompOk, RestoreComp, CompSnap, Remade, ValidCards;
    if table != [] {
      var k := |table| - 1;
      TableRoundTrip(table[..k]);
      assert CompSnaps(table)[..k] == CompSnaps(table[..k]);
      CompRoundTrip(table[k]);
      assert RemadeAll(table) == RemadeAll(table[..k]) + [RemadeAll(table)[k]];
    }
  }

  /** The restored game: compositions remade, a stale drawn discard forgotten. */
  ghost function Restored(s: State): State
    requires AllOk(s.table)
  {
    s.(table := RemadeAll(s.table),
       turn := if s.turn.mustUseDiscardDraw then s.turn else s.turn.(discardDrawCard := None))
  }

  lemma TurnRoundTrip(s: State)
    requires Seated(s) && (s.turn.mustUseDiscardDraw ==> s.turn.discardDrawCard.Some?)
    ensures RestoreTurn(TurnSnap(s.turn), |s.players|) == Success(Restored(s.(table := [])).turn)
  {
  }

  lemma PartsRoundTrip(s: State)
    requires AllOk(s.table) && Seated(s) && (s.turn.mustUseDiscardDraw ==> s.turn.discardDrawCard.Some?)
    ensures RestoreParts(SnapshotOf(s)) ==
            Success(Parts(s.players, Restored(s).table, s.drawPile, s.discardPile, Restored(s).turn))
  {
    PlayersRoundTrip(s.players);
    TableRoundTrip(s.table);
    CardsRoundTrip(s.drawPile);
    CardsRoundTrip(s.discardPile);
    TurnRoundTrip(s);
    hide RestorePlayers, RestoreComps, RestoreCards, RestoreTurn, AllOk, DistinctIds, PlayerSnaps, CompSnaps,
         CardSnaps, TurnSnap, RemadeAll;
  }

  lemma HeaderRoundTrip(s: State)
    requires Seated(s)
    ensures var t := SnapshotOf(s);
            HeaderError(t).None? && ModeOf(t.gameMode) == s.mode && 0 <= t.phase <= 3 && PhaseOf(t.phase) == s.phase
  {
    hide DistinctIds, PlayerSnaps, CompSnaps, CardSnaps, TurnSnap;
  }

  /** No reachable game is refused when it is read back, and this is what comes back. */
  lemma RestoreAccepts(s: State)
    requires AllOk(s.table) && Seated(s) && (s.turn.mustUseDiscardDraw ==> s.turn.discardDrawCard.Some?)
    ensures Restore(SnapshotOf(s)) == Success(Restored(s))
  {
    PartsRoundTrip(s);
    HeaderRoundTrip(s);
    hide RestoreParts, AllOk, DistinctIds, PlayerSnaps, CompSnaps, CardSnaps, TurnSnap, RemadeAll, HeaderError,
         ModeOf, PhaseOf,
         ModeName, PhaseNumber;
  }

  lemma RemadeOk(c: Comp)
    requires CompOk(c)
    ensures CompOk(Remade(c)) && Remade(c).variant == c.variant && multiset(Remade(c).cards) == multiset(c.cards)
  {
    MakeCompOk(c.cards, c.variant, false);
  }

  /** A run the engine recognises keeps its layout. */
  lemma RecognisedKeepsLayout(c: Comp)
    requires CompOk(c) && c.variant == Run && CardsAreOrdered(c.cards)
    ensures Remade(c) == Comp(Run, c.cards, AssignedJokers(Run, c.cards))
  {
    BestRunOrderLaysOut(c.cards);
  }

  lemma {:induction false} RemadeKeepsCards(table: seq<Comp>)
    requires AllOk(table)
    ensures AllOk(RemadeAll(table)) && TableCards(RemadeAll(table)) == TableCards(table)
  {
    hide CompOk, Remade;
    forall i | 0 <= i < |table|
      ensures CompOk(RemadeAll(table)[i]) && multiset(RemadeAll(table)[i].cards) == multiset(table[i].cards)
    {
      RemadeOk(table[i]);
    }
    if table != [] {
      var k := |table| - 1;
      RemadeKeepsCards(table[..k]);
      assert RemadeAll(table)[..k] == RemadeAll(table[..k]);
    }
  }

  lemma RestoredCards(s: State)
    requires AllOk(s.table)
    ensures var t := Restored(s); AllOk(t.table) && AllCards(t) == AllCards(s) && Held(t) == Held(s)
  {
    RemadeKeepsCards(s.table);
    hide RemadeAll, AllOk, TableCards, D.HandCards;
  }

  lemma RestoredFields(s: State)
    requires AllOk(s.table)
    ensures var t := Restored(s);
            t == s.(table := t.table, turn := t.turn) && (s.table == [] ==> t.table == []) &&
            t.turn == s.turn.(discardDrawCard := t.turn.discardDrawCard)
  {
  }

  /** Restoring loses no card, no point and no seat. */
  lemma RestoredKeeps(s: State)
    requires Inv(s)
    ensures Inv(Restored(s))
  {
    hide Restored, TotalsWithinLimit, TwoActive, AllOk, AllCards, Held, PenaltySum, InflictedSum, HandSizes, Seated,
         EmptyHands;
    RestoredCards(s);
    RestoredFields(s);
    SameSizes(s, Restored(s));
    SeatedRestored(s);
  }

  lemma SeatedRestored(s: State)
    requires AllOk(s.table) && Seated(s)
    ensures Seated(Restored(s))
  {
    RestoredFields(s);
    hide Restored, AllOk, DistinctIds;
  }

  lemma SameSizes(s: State, t: State)
    requires t.players == s.players && t.turn.playerIndex == s.turn.playerIndex && t.turn.hasDrawn == s.turn.hasDrawn
    ensures HandSizes(s) ==> HandSizes(t)
  {
  }

  // ---------------------------------------------------------------- the loops of the restore

  lemma {:induction false} RestoreCardsFails(snapshots: seq<CardSnapshot>, i: nat)
    requires i < |snapshots| && RestoreCards(snapshots[..i + 1]).Failure?
    ensures RestoreCards(snapshots) == RestoreCards(snapshots[..i + 1])
    decreases |snapshots|
  {
    if i + 1 < |snapshots| {
      var front := snapshots[..|snapshots| - 1];
      assert front[..i + 1] == snapshots[..i + 1];
      RestoreCardsFails(front, i);
    } else {
      assert snapshots[..i + 1] == snapshots;
    }
  }

  method RestoreCardList(snapshots: seq<CardSnapshot>) returns (r: Result<seq<Card>, RestoreError>)
    ensures r == RestoreCards(snapshots)
  {
    var cards: seq<Card> := [];
    for i := 0 to |snapshots|
      invariant RestoreCards(snapshots[..i]) == Success(cards)
    {
      assert snapshots[..i + 1][..i] == snapshots[..i];
      var card := RestoreCard(snapshots[i]);
      if card.Failure? {
        RestoreCardsFails(snapshots, i);
        return Failure(card.error);
      }
      cards := cards + [card.value];
    }
    assert snapshots[..|snapshots|] == snapshots;
    return Success(cards);
  }

  lemma {:induction false} RestorePlayersFails(snapshots: seq<PlayerSnapshot>, i: nat)
    requires i < |snapshots| && RestorePlayers(snapshots[..i + 1]).Failure?
    ensures RestorePlayers(snapshots) == RestorePlayers(snapshots[..i + 1])
    decreases |snapshots|
  {
    if i + 1 < |snapshots| {
      var front := snapshots[..|snapshots| - 1];
      assert front[..i + 1] == snapshots[..i + 1];
      RestorePlayersFails(front, i);
    } else {
      assert snapshots[..i + 1] == snapshots;
    }
  }

  method RestorePlayerList(snapshots: seq<PlayerSnapshot>) returns (r: Result<seq<Player>, RestoreError>)
    ensures r == RestorePlayers(snapshots)
  {
    hide RestoreCards;
    var players: seq<Player> := [];
    var seenPlayerIds: set<string> := {};
    for i := 0 to |snapshots|
      invariant RestorePlayers(snapshots[..i]) == Success(players)
      invariant forall id :: id in seenPlayerIds <==> SeenId(snapshots[..i], id)
    {
      assert snapshots[..i + 1][..i] == snapshots[..i];
      var p := snapshots[i];
      if p.id == "" {
        RestorePlayersFails(snapshots, i);
        return Failure(MissingPlayerId);
      }
      if p.id in seenPlayerIds {
        RestorePlayersFails(snapshots, i);
        return Failure(DuplicatePlayerId);
      }
      var hand := RestoreCardList(p.hand);
      if hand.Failure? {
        RestorePlayersFails(snapshots, i);
        return Failure(hand.error);
      }
      OneMoreSeen(snapshots, i);
      seenPlayerIds := seenPlayerIds + {p.id};
      players := players + [Player(p.id, hand.value, p.totalPoints, p.pointsGained, p.unadjustedTotalPoints,
                                   p.hasOpened, p.forfeited, p.statistics)];
    }
    assert snapshots[..|snapshots|] == snapshots;
    return Success(players);
  }

  lemma OneMoreSeen(snapshots: seq<PlayerSnapshot>, i: nat)
    requires i < |snapshots|
    ensures forall id :: SeenId(snapshots[..i + 1], id) <==> id == snapshots[i].id || SeenId(snapshots[..i], id)
  {
    forall id
      ensures SeenId(snapshots[..i + 1], id) <==> id == snapshots[i].id || SeenId(snapshots[..i], id)
    {
      if j :| 0 <= j < i && snapshots[..i][j].id == id {
        assert snapshots[..i + 1][j].id == id;
      }
      assert snapshots[..i + 1][i] == snapshots[i];
    }
  }

  lemma {:induction false} RestoreCompsFails(snapshots: seq<CompSnapshot>, i: nat)
    requires i < |snapshots| && RestoreComps(snapshots[..i + 1]).Failure?
    ensures RestoreComps(snapshots) == RestoreComps(snapshots[..i + 1])
    decreases |snapshots|
  {
    hide RestoreComp;
    if i + 1 < |snapshots| {
      var front := snapshots[..|snapshots| - 1];
      assert front[..i + 1] == snapshots[..i + 1];
      RestoreCompsFails(front, i);
    } else {
      assert snapshots[..i + 1] == snapshots;
    }
  }

  /** A composition whose variant is neither a set nor a run is invalid. */
  method RestoreOneComp(snapshot: CompSnapshot) returns (r: Result<Comp, RestoreError>)
    ensures r == RestoreComp(snapshot)
  {
    hide MakeComp, RestoreCards;
    var cards := RestoreCardList(snapshot.cards);
    if cards.Failure? {
      return Failure(cards.error);
    }
    if snapshot.variant != "set" && snapshot.variant != "run" {
      return Failure(BadComposition);
    }
    var comp := NewComposition(cards.value, if snapshot.variant == "set" then Set else Run, false);
    if comp.None? {
      return Failure(BadComposition);
    }
    return Success(comp.value);
  }

  method RestoreCompList(snapshots: seq<CompSnapshot>) returns (r: Result<seq<Comp>, RestoreError>)
    ensures r == RestoreComps(snapshots)
  {
    hide RestoreComp;
    var comps: seq<Comp> := [];
    for i := 0 to |snapshots|
      invariant RestoreComps(snapshots[..i]) == Success(comps)
    {
      assert snapshots[..i + 1][..i] == snapshots[..i];
      var comp := RestoreOneComp(snapshots[i]);
      if comp.Failure? {
        RestoreCompsFails(snapshots, i);
        return Failure(comp.error);
      }
      comps := comps + [comp.value];
    }
    assert snapshots[..|snapshots|] == snapshots;
    return Success(comps);
  }

  method RestoreGameState(s: Snapshot) returns (r: Result<State, RestoreError>)
    ensures r == Restore(s)
  {
    hide RestorePlayers, RestoreComps, RestoreCards;
    if HeaderError(s).Some? {
      return Failure(HeaderError(s).value);
    }
    var players := RestorePlayerList(s.players);
    if players.Failure? {
      return Failure(players.error);
    }
    if |players.value| > s.maxPlayers {
      return Failure(TooManyPlayers);
    }
    if s.phase != 0 && |players.value| == 0 {
      return Failure(MissingPlayers);
    }
    var table := RestoreCompList(s.comps);
    if table.Failure? {
      return Failure(table.error);
    }
    var drawPile := RestoreCardList(s.drawPile);
    if drawPile.Failure? {
      return Failure(drawPile.error);
    }
    var discardPile := RestoreCardList(s.discardPile);
    if discardPile.Failure? {
      return Failure(discardPile.error);
    }
    var turn := RestoreTurn(s.turn, |players.value|);
    if turn.Failure? {
      return Failure(turn.error);
    }
    if s.dealerIndex < 0 || s.dealerIndex >= AtLeastOne(|players.value|) {
      return Failure(BadDealer);
    }
    if s.roundWinnerIndex < -1 || s.roundWinnerIndex >= AtLeastOne(|players.value|) {
      return Failure(BadWinner);
    }
    return Success(State(players.value, table.value, drawPile.value, discardPile.value, s.maxPlayers, PhaseOf(s.phase),
                         s.round, s.dealerIndex, turn.value, s.roundWinnerIndex, ModeOf(s.gameMode)));
  }
}
