/** What a snapshot must satisfy to be read back, and what is read: every check of persistence.go, whichever comes
    first, without following the code. */
module RestoreChecks {
  import opened Cards
  import opened Compositions
  import opened TablePlay
  import opened RoundScoring
  import opened GameModel
  import opened Persistence

  predicate Readable(c: CardSnapshot) {
    c.isJoker || (ACE <= c.rank <= KING && 0 <= c.suit < 4)
  }

  predicate AllReadable(cards: seq<CardSnapshot>) {
    forall i :: 0 <= i < |cards| ==> Readable(cards[i])
  }

  /** The card a readable snapshot stands for. */
  function CardOf(c: CardSnapshot): Card
    requires Readable(c)
  {
    if c.isJoker then Joker else Natural(c.rank, SUITS[c.suit])
  }

  function CardsOf(cards: seq<CardSnapshot>): (r: seq<Card>)
    requires AllReadable(cards)
  {
    seq(|cards|, i requires 0 <= i < |cards| => CardOf(cards[i]))
  }

  /** Cards are read one for one or not at all. */
  lemma {:induction false} CardsAreRead(cards: seq<CardSnapshot>)
    ensures RestoreCards(cards).Success? <==> AllReadable(cards)
    ensures AllReadable(cards) ==> RestoreCards(cards).value == CardsOf(cards)
  {
    if cards != [] {
      var k := |cards| - 1;
      CardsAreRead(cards[..k]);
      assert AllReadable(cards) <==> AllReadable(cards[..k]) && Readable(cards[k]);
    }
  }

  // ---------------------------------------------------------------- players

  /** Every player has an id of its own and a readable hand. */
  predicate PlayersReadable(players: seq<PlayerSnapshot>) {
    && (forall i :: 0 <= i < |players| ==> players[i].id != "" && AllReadable(players[i].hand))
    && (forall i, j :: 0 <= i < j < |players| ==> players[i].id != players[j].id)
  }

  /** The player is the one saved, with the same points, flags and statistics. */
  predicate SamePlayer(saved: PlayerSnapshot, p: Player)
    requires AllReadable(saved.hand)
  {
    p == Player(saved.id, CardsOf(saved.hand), saved.totalPoints, saved.pointsGained, saved.unadjustedTotalPoints,
                saved.hasOpened, saved.forfeited, saved.statistics)
  }

  predicate SamePlayers(saved: seq<PlayerSnapshot>, players: seq<Player>)
    requires PlayersReadable(saved)
  {
    |players| == |saved| && forall i :: 0 <= i < |saved| ==> SamePlayer(saved[i], players[i])
  }

  lemma OneMoreReadable(players: seq<PlayerSnapshot>)
    requires players != []
    ensures var k := |players| - 1;
            PlayersReadable(players) <==>
            PlayersReadable(players[..k]) && players[k].id != "" && !SeenId(players[..k], players[k].id) &&
            AllReadable(players[k].hand)
  {
    hide AllReadable;
    var k := |players| - 1;
    var front := players[..k];
    assert forall i :: 0 <= i < k ==> front[i] == players[i];
    if PlayersReadable(front) && players[k].id != "" && !SeenId(front, players[k].id) && AllReadable(players[k].hand) {
      forall i, j | 0 <= i < j < |players|
        ensures players[i].id != players[j].id
      {
        assert front[i].id == players[i].id;
        assert j < k ==> front[j].id == players[j].id;
      }
    }
  }

  lemma {:induction false} PlayersAreRead(players: seq<PlayerSnapshot>)
    ensures RestorePlayers(players).Success? <==> PlayersReadable(players)
    ensures PlayersReadable(players) ==> SamePlayers(players, RestorePlayers(players).value)
  {
    hide AllReadable, PlayersReadable, SeenId;
    if players == [] {
      NobodyToRead();
    } else {
      var k := |players| - 1;
      PlayersAreRead(players[..k]);
      OneMoreReadable(players);
      CardsAreRead(players[k].hand);
      if PlayersReadable(players) {
        OneMorePlayer(players, RestorePlayers(players[..k]).value, RestorePlayer(players[k], players[..k]).value);
      }
    }
  }

  lemma NobodyToRead()
    ensures PlayersReadable([]) && SamePlayers([], [])
  {
  }

  lemma OneMorePlayer(saved: seq<PlayerSnapshot>, front: seq<Player>, p: Player)
    requires saved != [] && PlayersReadable(saved) && PlayersReadable(saved[..|saved| - 1])
    requires SamePlayers(saved[..|saved| - 1], front) && SamePlayer(saved[|saved| - 1], p)
    ensures SamePlayers(saved, front + [p])
  {
    hide AllReadable, SamePlayer;
    forall i | 0 <= i < |saved|
      ensures SamePlayer(saved[i], (front + [p])[i])
    {
      assert i < |saved| - 1 ==> saved[..|saved| - 1][i] == saved[i];
    }
  }

  // ---------------------------------------------------------------- compositions

  function VariantOf(name: string): Variant {
    if name == "set" then Set else Run
  }

  ghost predicate CompReadable(c: CompSnapshot) {
    (c.variant == "set" || c.variant == "run") && AllReadable(c.cards) &&
    ValidCards(VariantOf(c.variant), CardsOf(c.cards))
  }

  ghost predicate CompsReadable(comps: seq<CompSnapshot>) {
    forall i :: 0 <= i < |comps| ==> CompReadable(comps[i])
  }

  /** The composition has the saved variant and cards. */
  ghost predicate SameComp(saved: CompSnapshot, c: Comp)
    requires CompReadable(saved)
  {
    CompOk(c) && c.variant == VariantOf(saved.variant) && multiset(c.cards) == multiset(CardsOf(saved.cards))
  }

  lemma CompIsRead(c: CompSnapshot)
    ensures RestoreComp(c).Success? <==> CompReadable(c)
    ensures CompReadable(c) ==> SameComp(c, RestoreComp(c).value)
  {
    hide AllReadable, RestoreCards, CardsOf, ValidCards, CompOk;
    CardsAreRead(c.cards);
    if RestoreCards(c.cards).Success? {
      MakeCompOk(RestoreCards(c.cards).value, VariantOf(c.variant), false);
    }
  }

  lemma {:induction false} CompsAreRead(comps: seq<CompSnapshot>)
    ensures RestoreComps(comps).Success? <==> CompsReadable(comps)
    ensures CompsReadable(comps) ==>
              var table := RestoreComps(comps).value;
              |table| == |comps| && forall i :: 0 <= i < |comps| ==> SameComp(comps[i], table[i])
  {
    hide CompReadable, SameComp, RestoreComp;
    if comps != [] {
      var k := |comps| - 1;
      CompsAreRead(comps[..k]);
      CompIsRead(comps[k]);
      assert CompsReadable(comps) <==> CompsReadable(comps[..k]) && CompReadable(comps[k]);
      if CompsReadable(comps) {
        forall i | 0 <= i < k
          ensures SameComp(comps[i], RestoreComps(comps[..k]).value[i])
        {
          assert comps[..k][i] == comps[i];
        }
      }
    }
  }

  // ---------------------------------------------------------------- the whole snapshot

  /** An index of a seat, or 0 when nobody is seated. */
  predicate SeatIndex(i: int, count: nat) {
    0 <= i && (i < count || i == 0)
  }

  predicate HeaderReadable(s: Snapshot) {
    && s.version == 1 && s.maxPlayers > 0 && s.round > 0 && 0 <= s.phase <= 3
    && (s.gameMode == "" || s.gameMode == "full" || s.gameMode == "quick")
  }

  predicate TurnReadable(t: TurnSnapshot, count: nat) {
    && t.number > 0 && SeatIndex(t.playerIndex, count)
    && (t.mustUseDiscardDraw ==> t.discardDrawCard.Some? && Readable(t.discardDrawCard.value))
  }

  ghost predicate Restorable(s: Snapshot) {
    && HeaderReadable(s) && PlayersReadable(s.players) && |s.players| <= s.maxPlayers
    && (s.phase != 0 ==> s.players != []) && CompsReadable(s.comps)
    && AllReadable(s.drawPile) && AllReadable(s.discardPile) && TurnReadable(s.turn, |s.players|)
    && SeatIndex(s.dealerIndex, |s.players|)
    && (s.roundWinnerIndex == -1 || SeatIndex(s.roundWinnerIndex, |s.players|))
  }

  /** The game is the one that was saved; only the layout of runs and the jokers' meanings are found anew. */
  ghost predicate IsGameOf(s: Snapshot, t: State)
    requires Restorable(s)
  {
    && SamePlayers(s.players, t.players)
    && |t.table| == |s.comps| && (forall i :: 0 <= i < |s.comps| ==> SameComp(s.comps[i], t.table[i]))
    && t.drawPile == CardsOf(s.drawPile) && t.discardPile == CardsOf(s.discardPile)
    && t.maxPlayers == s.maxPlayers && t.round == s.round && t.dealerIndex == s.dealerIndex
    && t.roundWinnerIndex == s.roundWinnerIndex && PhaseNumber(t.phase) == s.phase
    && t.mode == (if s.gameMode == "quick" then Quick else Full)
    && t.turn.number == s.turn.number && t.turn.playerIndex == s.turn.playerIndex
    && t.turn.hasDrawn == s.turn.hasDrawn && t.turn.mustUseDiscardDraw == s.turn.mustUseDiscardDraw
    && t.turn.discardDrawCard ==
       if s.turn.mustUseDiscardDraw then Some(CardOf(s.turn.discardDrawCard.value)) else None
  }

  lemma HeaderIff(s: Snapshot)
    ensures HeaderError(s).None? <==> HeaderReadable(s)
  {
  }

  lemma TurnIff(t: TurnSnapshot, count: nat)
    ensures RestoreTurn(t, count).Success? <==> TurnReadable(t, count)
  {
  }

  /** A snapshot is read back exactly if it passes every check, and then it is the game that was saved. */
  lemma RestoreIff(s: Snapshot)
    ensures Restore(s).Success? <==> Restorable(s)
    ensures Restorable(s) ==> IsGameOf(s, Restore(s).value)
  {
    hide PlayersReadable, SamePlayers, CompsReadable, SameComp, AllReadable, CardsOf, RestorePlayers, RestoreComps,
         RestoreCards;
    HeaderIff(s);
    PlayersAreRead(s.players);
    CompsAreRead(s.comps);
    CardsAreRead(s.drawPile);
    CardsAreRead(s.discardPile);
    TurnIff(s.turn, |s.players|);
    SameCount(s.players);
  }

  lemma SameCount(players: seq<PlayerSnapshot>)
    requires RestorePlayers(players).Success? <==> PlayersReadable(players)
    requires PlayersReadable(players) ==> SamePlayers(players, RestorePlayers(players).value)
    ensures PlayersReadable(players) ==> |RestorePlayers(players).value| == |players|
  {
  }
}
