/** A position in which the discard may be taken although no table play can follow: the search
    builds the opening composition from a joker it has yet to reclaim, the executor wants one
    composition from cards already held (state.go:912-920, 1415-1418). */
module DiscardTrap {
  import opened Cards
  import opened RunSpec
  import opened RunFitting
  import opened RunScoring
  import opened Compositions
  import opened Piles
  import opened TablePlay
  import opened PlayedCards
  import opened Masks
  import opened SearchPlays
  import opened DiscardSearch
  import opened Rotation
  import opened RoundScoring
  import opened GameModel
  import opened GameInvariants
  import opened Persistence
  import opened GameRuns
  import D = Dealing

  const PAIRED: seq<Card> := [Natural(TWO, Diamonds), Natural(4, Clubs), Natural(9, Diamonds), Natural(5, Spades)]
  const HELD: seq<Card> := PAIRED + PAIRED + [Natural(7, Spades), Natural(TEN, Hearts), Natural(JACK, Hearts),
                                              Natural(KING, Hearts)]
  const DISCARD: Card := Natural(ACE, Hearts)
  const SEVENS: seq<Card> := [Natural(7, Diamonds), Natural(7, Clubs), Natural(7, Hearts), Joker]
  const RUN_WITH_JOKER: seq<Card> := [Natural(TEN, Hearts), Natural(JACK, Hearts), Natural(KING, Hearts), Joker,
                                      Natural(ACE, Hearts)]

  ghost function Sevens(): Comp {
    Comp(Set, SEVENS, map[3 := [Natural(7, Spades)]])
  }

  // ---------------------------------------------------------------- nothing can be opened

  predicate AtHand(c: Card) {
    c in HELD + [DISCARD]
  }

  lemma HeldOneByOne(c: Card)
    requires AtHand(c)
    ensures c in [HELD[0], HELD[1], HELD[2], HELD[3], HELD[8], HELD[9], HELD[10], HELD[11], DISCARD]
  {
  }

  lemma NoRunHeld(a: seq<Card>, suit: Suit, start: int)
    requires |a| >= 3 && Arrangement(a, suit, start)
    ensures !AtHand(a[0]) || !AtHand(a[1]) || !AtHand(a[2])
  {
    if AtHand(a[0]) && AtHand(a[1]) {
      HeldOneByOne(a[0]);
      HeldOneByOne(a[1]);
      if AtHand(a[2]) {
        HeldOneByOne(a[2]);
      }
    }
  }

  lemma NoSetHeld(cards: seq<Card>)
    requires |cards| >= 2 && SetShape(cards)
    ensures !AtHand(cards[0]) || !AtHand(cards[1])
  {
    if AtHand(cards[0]) {
      HeldOneByOne(cards[0]);
      if AtHand(cards[1]) {
        HeldOneByOne(cards[1]);
      }
    }
  }

  /** No composition can be made of the cards held and the discard. */
  lemma NothingComposes(variant: Variant, cards: seq<Card>)
    requires multiset(cards) <= multiset(HELD + [DISCARD])
    ensures !ValidCards(variant, cards)
  {
    forall c | c in cards
      ensures AtHand(c)
    {
      assert c in multiset(cards);
    }
    if ValidCards(variant, cards) {
      if variant == Set {
        SetIffShape(cards);
        NoSetHeld(cards);
      } else {
        var a, suit, start :| ArrangesAt(cards, a, suit, start);
        SameMultisetSameLength(a, cards);
        forall i | 0 <= i < 3
          ensures AtHand(a[i])
        {
          assert a[i] in multiset(a) && a[i] in cards;
        }
        NoRunHeld(a, suit, start);
      }
    }
  }

  /** Whatever is tried on the table, the executor refuses it. */
  lemma EveryPlayFails(comps: seq<Comp>, additions: seq<Addition>, reclaims: seq<JokerReclaim>)
    requires AllOk(comps)
    ensures ApplyTablePlay(TableState(HELD + [DISCARD], [Sevens()], false), comps, additions, reclaims).Failure?
  {
    hide CompOk, LayComps, TableMoves, RemoveEach;
    LayCompsKeeps(comps);
    var t := OnTable([Sevens()], comps, additions, reclaims);
    if t.Some? {
      forall i | 0 <= i < |t.value.laid.comps|
        ensures !(multiset(t.value.laid.comps[i].cards) <= multiset(HELD + [DISCARD]))
      {
        ValidOnTable(t.value.laid.comps[i]);
        if multiset(t.value.laid.comps[i].cards) <= multiset(HELD + [DISCARD]) {
          NothingComposes(t.value.laid.comps[i].variant, t.value.laid.comps[i].cards);
        }
      }
    }
  }

  lemma ValidOnTable(c: Comp)
    requires CompOk(c)
    ensures ValidCards(c.variant, c.cards)
  {
  }

  // ---------------------------------------------------------------- the search accepts

  lemma SevensLackSpades()
    ensures SetOptions(SEVENS) == [Natural(7, Spades)] && IsSet(SEVENS)
    ensures CompOk(Sevens()) && CanReclaimJoker(Sevens(), 3, Natural(7, Spades))
  {
    SetIffShape(SEVENS);
    assert SEVENS[2].suit == Hearts && SEVENS[0].suit == Diamonds && SEVENS[1].suit == Clubs;
    assert UsedSuits(SEVENS) == {Hearts, Diamonds, Clubs} by {
      assert SEVENS[0] in SEVENS && SEVENS[1] in SEVENS && SEVENS[2] in SEVENS;
    }
    var first := FirstNatural(SEVENS);
    assert first.Some? by {
      assert SEVENS[0] in SEVENS;
    }
    assert first.value.rank == 7;
  }

  lemma RunOpens()
    ensures IsRun(RUN_WITH_JOKER) && !IsSet(RUN_WITH_JOKER) && Points(Run, RUN_WITH_JOKER) >= OPENING_POINTS
  {
    var a := [Natural(TEN, Hearts), Natural(JACK, Hearts), Joker, Natural(KING, Hearts), Natural(ACE, Hearts)];
    assert ArrangesAt(RUN_WITH_JOKER, a, Hearts, 10);
    BestTotalIsMaximum(RUN_WITH_JOKER);
    assert WindowValue(10, 5) == 50 by {
      assert WindowValue(10, 3) == 30;
    }
    assert RUN_WITH_JOKER[0] in multiset(RUN_WITH_JOKER);
    NotAllJokers(RUN_WITH_JOKER, 0);
  }

  lemma NotAllJokers(cards: seq<Card>, i: nat)
    requires i < |cards| && cards[i].Natural?
    ensures JokerCount(cards) != |cards|
  {
    assert cards == cards[..i] + [cards[i]] + cards[i + 1..];
    assert multiset(cards[..i])[Joker] <= i && multiset(cards[i + 1..])[Joker] <= |cards| - i - 1;
  }

  // ---------------------------------------------------------------- masks of neighbouring cards

  /** The mask moved up by k places. */
  function Shift(a: nat, k: nat): nat {
    if k == 0 then a else 2 * Shift(a, k - 1)
  }

  lemma {:induction false} ShiftTwice(a: nat, k: nat, j: nat)
    ensures Shift(a, k + j) == Shift(Shift(a, j), k)
  {
    if k > 0 {
      ShiftTwice(a, k - 1, j);
    }
  }

  lemma {:induction false} ShiftedPower(n: nat)
    ensures Pow2(n) == Shift(1, n)
  {
    if n > 0 {
      ShiftedPower(n - 1);
    }
  }

  lemma {:induction false} ShiftedBits(a: nat, k: nat, i: nat)
    ensures Bit(Shift(a, k), i) <==> i >= k && Bit(a, i - k)
  {
    if k > 0 && i > 0 {
      ShiftedBits(a, k - 1, i - 1);
    }
  }

  lemma {:induction false} ShiftedMasks(a: nat, b: nat, k: nat)
    requires a > 0 && b > 0
    ensures Shift(a, k) > 0 && Shift(b, k) > 0
    ensures And(Shift(a, k), Shift(b, k)) == Shift(And(a, b), k)
    ensures Or(Shift(a, k), Shift(b, k)) == Shift(Or(a, b), k)
    ensures OnesCount(Shift(a, k)) == OnesCount(a)
  {
    if k > 0 {
      ShiftedMasks(a, b, k - 1);
    }
  }

  /** A mask of all places from k on selects the cards from there on. */
  lemma {:induction false} TopCards(cards: seq<Card>, mask: nat, k: nat)
    requires k <= |cards| && forall i: nat :: i < |cards| ==> (Bit(mask, i) <==> i >= k)
    ensures MaskCards(cards, mask) == cards[k..]
  {
    if cards == [] {
    } else if |cards| == k {
      NoneSelected(cards, mask);
    } else {
      var n := |cards| - 1;
      TopCards(cards[..n], mask, k);
      assert cards[k..] == cards[..n][k..] + [cards[n]];
    }
  }

  lemma {:induction false} NoneSelected(cards: seq<Card>, mask: nat)
    requires forall i: nat :: i < |cards| ==> !Bit(mask, i)
    ensures MaskCards(cards, mask) == []
  {
    if cards != [] {
      NoneSelected(cards[..|cards| - 1], mask);
    }
  }

  /** The discard, at place 13, the ten, jack, king and joker before it, and the seven at place 8. */
  const DISCARD_MASK: nat := 8192
  const SUBSET: nat := 7680
  const RUN_MASK: nat := 15872
  const USED: nat := 256

  lemma MasksAreShifts()
    ensures Pow2(13) == DISCARD_MASK == Shift(16, 9) && SUBSET == Shift(15, 9) &&
            RUN_MASK == Shift(31, 9) == Shift(62, 8)
    ensures Pow2(8) == USED == Shift(1, 8)
  {
    ShiftedPower(13);
    ShiftedPower(8);
    assert Shift(1, 4) == 16;
    ShiftTwice(1, 9, 4);
    ShiftNine(16);
    ShiftNine(15);
    ShiftNine(31);
    ShiftTwice(31, 8, 1);
    assert Shift(1, 8) == 256 by {
      assert Shift(1, 4) == 16;
    }
  }

  lemma ShiftNine(a: nat)
    ensures Shift(a, 9) == 512 * a
  {
    assert Shift(a, 1) == 2 * a;
    assert Shift(a, 2) == 4 * a;
    assert Shift(a, 3) == 8 * a;
    assert Shift(a, 4) == 16 * a;
    assert Shift(a, 5) == 32 * a;
    assert Shift(a, 6) == 64 * a;
    assert Shift(a, 7) == 128 * a;
    assert Shift(a, 8) == 256 * a;
  }

  lemma SmallMasks()
    ensures Or(15, 16) == 31 && OnesCount(15) == 4 && And(1, 62) == 0 && Or(1, 62) == 63 && OnesCount(63) == 6
  {
    assert Or(7, 8) == 15 && Or(3, 4) == 7 && OnesCount(7) == 3 && OnesCount(31) == 5;
  }

  lemma ShiftOfZero(k: nat)
    ensures Shift(0, k) == 0
  {
  }

  lemma MaskBits()
    ensures Or(SUBSET, DISCARD_MASK) == RUN_MASK && OnesCount(SUBSET) == 4
    ensures And(USED, RUN_MASK) == 0 && OnesCount(Or(USED, RUN_MASK)) == 6
  {
    hide Or, And, OnesCount, Shift;
    MasksAreShifts();
    SmallMasks();
    ShiftedMasks(15, 16, 9);
    ShiftedMasks(1, 62, 8);
    ShiftedMasks(63, 1, 8);
    ShiftOfZero(8);
  }

  lemma SelectedRun()
    ensures MaskCards(HELD + [Joker, DISCARD], RUN_MASK) == RUN_WITH_JOKER
  {
    hide MaskCards;
    MasksAreShifts();
    var cards := HELD + [Joker, DISCARD];
    forall i: nat | i < 14
      ensures Bit(RUN_MASK, i) <==> i >= 9
    {
      hide Bit;
      ShiftedBits(31, 9, i);
      if i >= 9 {
        LowBits(i - 9);
      }
    }
    TopCards(cards, RUN_MASK, 9);
    assert cards[9..] == RUN_WITH_JOKER;
  }

  lemma LowBits(i: nat)
    requires i < 5
    ensures Bit(31, i)
  {
    assert Bit(3, 0) && Bit(3, 1) && Bit(7, 2) && Bit(15, 3);
  }

  // ---------------------------------------------------------------- taking the discard is a trap

  ghost function AdvanceReclaim(): SearchPlay {
    SearchPlay([], [], [], [JokerReclaim(0, 3, Natural(7, Spades))], Pow2(8))
  }

  lemma ReclaimMoves()
    ensures var m := TableMoves([Sevens()], AdditionsOf(HELD + [Joker, DISCARD], []), AdvanceReclaim().reclaims);
            m.Some? && m.value.points == 0
  {
    SevensLackSpades();
    ReclaimSucceeds(Sevens(), 3, Natural(7, Spades));
    hide CompOk, CanReclaimJoker, ReclaimJoker;
    var r := AdvanceReclaim().reclaims;
    assert r[..|r| - 1] == [] && r[|r| - 1] == JokerReclaim(0, 3, Natural(7, Spades));
    assert AdditionsOf(HELD + [Joker, DISCARD], []) == [];
  }

  lemma OneMask(hand: seq<Card>, mask: nat, variant: Variant)
    requires ValidCards(variant, MaskCards(hand, mask))
    ensures MasksValid(hand, [mask], [variant])
    ensures MaskPoints(hand, [mask], [variant]) == Points(variant, MaskCards(hand, mask))
  {
    hide MaskCards, ValidCards, Points;
    assert [mask][..0] == [] && [variant][..0] == [];
  }

  lemma RunPlay()
    ensures var p := WithComposition(AdvanceReclaim(), RUN_MASK, Run);
            p.masks == [RUN_MASK] && p.variants == [Run] && p.used == Or(USED, RUN_MASK) &&
            AdvanceReclaim().used == USED
    ensures SyntheticState(HELD, DISCARD, [Sevens()], false).hand == HELD + [Joker, DISCARD]
  {
    hide Or, Pow2, Shift;
    MasksAreShifts();
  }

  lemma RunPlayIsValid()
    ensures ValidPlay(SyntheticState(HELD, DISCARD, [Sevens()], false),
                      WithComposition(AdvanceReclaim(), RUN_MASK, Run))
  {
    hide Or, And, OnesCount, MaskCards, TableMoves, ValidCards, Points, Pow2, MasksValid, MaskPoints, AdditionsOf;
    MaskBits();
    SelectedRun();
    RunOpens();
    ReclaimMoves();
    RunPlay();
    RunIsARun();
    OneMask(HELD + [Joker, DISCARD], RUN_MASK, Run);
  }

  lemma RunIsARun()
    ensures ValidCards(Run, RUN_WITH_JOKER) && !ValidCards(Set, RUN_WITH_JOKER)
  {
    hide IsRun, IsSet;
    RunOpens();
  }

  /** The validator accepts the run made with the joker that is still on the table. */
  lemma RunIsValidPlay()
    ensures DirectPlay(SyntheticState(HELD, DISCARD, [Sevens()], false), AdvanceReclaim(), DISCARD_MASK, SUBSET, Run)
    ensures Exact(SyntheticState(HELD, DISCARD, [Sevens()], false), DISCARD_MASK, SUBSET, Run)
  {
    hide Or, And, OnesCount, MaskCards, ValidPlay, ValidCards, Pow2;
    MaskBits();
    SelectedRun();
    RunPlay();
    RunIsARun();
    RunPlayIsValid();
  }

  /** The search answers yes. */
  method SearchSaysYes() returns (ok: bool, ghost t: SearchState, ghost q: SearchPlay)
    ensures ok && Accepted(t, q, q.reclaims) && BaseOf(t, HELD + [DISCARD], q) && t.table == [Sevens()] && !t.hasOpened
  {
    SevensLackSpades();
    var sevens := Comp(Set, SEVENS, map[3 := [Natural(7, Spades)]]);
    SearchWouldFind();
    hide NoDirectPlay, NoAdditionPlay, NoReclaimPlay, NoDiscardReclaim, Accepted, BaseOf, CompOk, ValidPlay, OneAtOnce;
    ok, t, q := CanTakeDiscardNow(HELD, [DISCARD], [sevens], false);
  }

  lemma SearchWouldFind()
    ensures |HELD| == 12 && |SEVENS| == 4 && !NoReclaimPlay(HELD, DISCARD, [Sevens()], false, 0, 3, 8)
  {
    hide DirectPlay, Exact, Or, And;
    SevensLackSpades();
    RunIsValidPlay();
    MasksAreShifts();
    assert HELD[8] == Natural(7, Spades);
  }

  // ---------------------------------------------------------------- the position as a state of the game

  const NAMED_CARDS: seq<Card> := HELD + [DISCARD] + SEVENS

  const SINGLES: seq<Card> := [
    Natural(TWO, Diamonds), Natural(4, Clubs), Natural(9, Diamonds), Natural(5, Spades),
    Natural(7, Spades), Natural(TEN, Hearts),
    Natural(JACK, Hearts), Natural(KING, Hearts), Natural(ACE, Hearts), Natural(7, Diamonds),
    Natural(7, Clubs), Natural(7, Hearts), Joker]

  predicate AllDifferent(s: seq<Card>) {
    forall i, j :: 0 <= i < j < |s| ==> s[i] != s[j]
  }

  lemma SinglesDiffer()
    ensures AllDifferent(SINGLES)
  {
  }

  lemma PairedAndSingles()
    ensures AllDifferent(PAIRED) && NAMED_CARDS == PAIRED + SINGLES && |NAMED_CARDS| == 17
  {
  }

  lemma AtMostOnce(s: seq<Card>, c: Card)
    requires AllDifferent(s)
    ensures multiset(s)[c] <= 1
  {
    if multiset(s)[c] >= 2 {
      var i, j := TwoOccurrences(s, c);
    }
  }

  lemma NamedCardsExist()
    ensures multiset(NAMED_CARDS) <= DoubleDeck() && |NAMED_CARDS| == 17
  {
    PairedAndSingles();
    Included(multiset(NAMED_CARDS), DoubleDeck());
  }

  lemma Included(named: multiset<Card>, deck: multiset<Card>)
    requires named == multiset(NAMED_CARDS) && deck == DoubleDeck()
    ensures named <= deck
  {
    hide DoubleDeck;
    forall c: Card
      ensures named[c] <= deck[c]
    {
      AtMostTwice(c);
      DoubleDeckCounts(c);
    }
  }

  lemma AtMostTwice(c: Card)
    ensures multiset(NAMED_CARDS)[c] <= 2
  {
    hide AllDifferent;
    SinglesDiffer();
    PairedAndSingles();
    AtMostOnce(PAIRED, c);
    AtMostOnce(SINGLES, c);
    assert multiset(NAMED_CARDS) == multiset(PAIRED) + multiset(SINGLES);
  }

  /** The cards nobody holds openly. */
  function Rest(): (r: seq<Card>)
    ensures multiset(r) == DoubleDeck() - multiset(NAMED_CARDS) && |r| == 91
  {
    NamedCardsExist();
    DoubleDeckCounts(Joker);
    RemoveEachSubtracts(DeckCards() + DeckCards(), NAMED_CARDS);
    RemoveEach(DeckCards() + DeckCards(), NAMED_CARDS).value
  }

  /** Two players; the first has not opened and is to draw, the second has and holds eight cards. */
  ghost function Position(): State {
    State([Player("A", HELD, 0, 0, 0, false, false, NO_STATISTICS),
           Player("B", Rest()[..8], 0, 0, 0, true, false, NO_STATISTICS)],
          [Sevens()], Rest()[8..], [DISCARD], 4, InProgress, 1, 1, FIRST_TURN, -1, Full)
  }

  lemma TwoHands(p: Player, q: Player)
    ensures D.HandCards([p, q]) == multiset(p.hand) + multiset(q.hand)
  {
    assert [p, q][..1] == [p] && [p][..0] == [];
    assert D.HandCards([p]) == D.HandCards([]) + multiset(p.hand);
  }

  lemma OneOnTable(c: Comp)
    ensures TableCards([c]) == multiset(c.cards)
  {
    assert [c][..0] == [];
  }

  lemma PositionKeepsCards()
    ensures AllCards(Position()) == DoubleDeck() && Held(Position()) == 24
  {
    hide DoubleDeck, Rest, D.HandCards, TableCards;
    NamedCardsExist();
    var s, r := Position(), Rest();
    TwoHands(s.players[0], s.players[1]);
    OneOnTable(Sevens());
    assert r == r[..8] + r[8..];
    AddUpCards(DoubleDeck(), multiset(r), multiset(r[..8]), multiset(r[8..]));
    assert |multiset(HELD) + multiset(r[..8])| == 20;
  }

  lemma AddUpCards(all: multiset<Card>, rest: multiset<Card>, a: multiset<Card>, b: multiset<Card>)
    requires multiset(NAMED_CARDS) <= all && rest == all - multiset(NAMED_CARDS) && rest == a + b
    ensures b + multiset([DISCARD]) + (multiset(HELD) + a) + multiset(SEVENS) == all
  {
    NamedParts();
    MoveAround(all, multiset(NAMED_CARDS), multiset(HELD), multiset([DISCARD]), multiset(SEVENS), a, b);
  }

  lemma NamedParts()
    ensures multiset(NAMED_CARDS) == multiset(HELD) + multiset([DISCARD]) + multiset(SEVENS)
  {
  }

  lemma MoveAround(all: multiset<Card>, named: multiset<Card>, h: multiset<Card>, d: multiset<Card>, s: multiset<Card>,
                   a: multiset<Card>, b: multiset<Card>)
    requires named <= all && all - named == a + b && named == h + d + s
    ensures b + d + (h + a) + s == all
  {
    assert all - named + named == all;
  }

  lemma PositionSeated()
    ensures Seated(Position()) && HasCurrent(Position())
  {
    hide Rest;
    assert "A"[0] != "B"[0];
  }

  lemma PositionPlayers()
    ensures HandSizes(Position()) && TotalsWithinLimit(Position().players) && TwoActive(Position().players)
  {
    hide Rest;
    var players := Position().players;
    assert !players[0].forfeited && !players[1].forfeited;
  }

  lemma PositionBalanced()
    ensures PenaltySum(Position().players) == InflictedSum(Position().players)
  {
    hide Rest;
    var players := Position().players;
    assert players[..1] == [players[0]] && players[..1][..0] == [];
    assert PenaltySum(players[..1]) == 0 && InflictedSum(players[..1]) == 0;
  }

  lemma PositionHasTable()
    ensures AllOk(Position().table)
  {
    SevensLackSpades();
    hide CompOk, Rest;
  }

  /** The position has every property the invariant gives to reachable states. */
  lemma PositionHolds()
    ensures Inv(Position()) && Obligation(Position())
  {
    PositionKeepsCards();
    PositionSeated();
    PositionPlayers();
    PositionBalanced();
    PositionHasTable();
    hide DoubleDeck, AllCards, Held, Seated, HandSizes, TotalsWithinLimit, TwoActive, PenaltySum, InflictedSum, AllOk,
         Rest;
  }

  // ---------------------------------------------------------------- the turn cannot be completed

  ghost function Taken(): State {
    DrawFromDiscard(Position(), true).state
  }

  /** What a player can do in a turn. */
  predicate InTurn(op: Op) {
    op.Draw? || op.TakeDiscard? || op.Play? || op.DiscardCard? || op.PlayAndDiscard?
  }

  lemma TakenIs()
    ensures var t := Taken();
            t.phase == InProgress && t.turn.hasDrawn && t.turn.mustUseDiscardDraw && HasCurrent(t) &&
            t.turn.playerIndex == 0 &&
            t.table == [Sevens()] && t.players[0].hand == HELD + [DISCARD] && !t.players[0].hasOpened
    ensures DrawFromDiscard(Position(), true).error.None?
  {
    hide Rest;
  }

  lemma SetsComeBack()
    ensures AllOk([Sevens()]) && RemadeAll([Sevens()]) == [Sevens()]
  {
    SevensLackSpades();
    hide SetOptions;
    assert Remade(Sevens()).cards == SEVENS;
    assert AssignedJokers(Set, SEVENS) == Sevens().representations;
  }

  lemma StuckPlay(s: State, comps: seq<Comp>, additions: seq<Addition>, reclaims: seq<JokerReclaim>)
    requires s == Taken() && AllOk(comps)
    ensures PlayTable(s, comps, additions, reclaims).error.Some? && PlayTable(s, comps, additions, reclaims).state == s
  {
    TakenIs();
    EveryPlayFails(comps, additions, reclaims);
    hide ApplyTablePlay, AllOk, Taken;
  }

  lemma TakenComesBack()
    ensures WellFormed(Taken()) && Restored(Taken()) == Taken()
  {
    PositionHolds();
    TakenIs();
    SetsComeBack();
    hide AllOk, RemadeAll, Rest, InPhase, Conserved, DistinctIds;
    TakenSeated();
  }

  lemma TakenSeated()
    ensures Seated(Taken())
  {
    PositionSeated();
    hide Rest;
  }

  lemma PlainActionsFail(op: Op)
    requires WellFormed(Taken()) && Possible(Taken(), op) && (op.Draw? || op.TakeDiscard? || op.DiscardCard?)
    ensures After(Taken(), op).state == Taken() && After(Taken(), op).error.Some?
  {
    hide PlayTable, Restored, Taken, CanUse, Seated, AllOk, MatchIndex, AddPlayer, StartGame, StartNextRound, Forfeit,
         EndWithoutWinner,
         Discarded, FinishRound, AdvanceTurn, WinsRound, Recycled, PlayThenDiscard;
    TakenIs();
  }

  lemma PlaysFail(op: Op)
    requires WellFormed(Taken()) && Possible(Taken(), op) && (op.Play? || op.PlayAndDiscard?)
    ensures After(Taken(), op).state == Taken() && After(Taken(), op).error.Some?
  {
    hide PlayTable, Restored, Taken, CanUse, Seated, AllOk, MatchIndex, AddPlayer, StartGame, StartNextRound, Forfeit,
         EndWithoutWinner,
         Discard, DrawFromDeck, DrawFromDiscard;
    TakenComesBack();
    StuckPlay(Taken(), op.comps, op.additions, op.reclaims);
  }

  /** Once the discard is taken every action of the turn fails and changes nothing, and a restart does not help. */
  lemma EverythingFails(op: Op)
    requires WellFormed(Taken()) && Possible(Taken(), op) && (InTurn(op) || op.Restart?)
    ensures After(Taken(), op).state == Taken() && (InTurn(op) ==> After(Taken(), op).error.Some?)
  {
    if op.Play? || op.PlayAndDiscard? {
      hide After, Taken, Possible, WellFormed;
      PlaysFail(op);
    } else if op.Restart? {
      hide Taken, Restored, Possible, Seated, AllOk;
      TakenComesBack();
    } else {
      hide After, Taken, Possible, WellFormed;
      PlainActionsFail(op);
    }
  }

  /** From a position that satisfies the invariant the engine lets a player who has not opened take the discard;
      then the turn cannot be completed. */
  method TakenAndTrapped() returns (ok: bool)
    ensures ok && Inv(Position()) && WellFormed(Position()) && Possible(Position(), TakeDiscard(ok))
    ensures After(Position(), TakeDiscard(ok)) == Outcome(Taken(), None) && WellFormed(Taken())
    ensures forall op :: Possible(Taken(), op) && (InTurn(op) || op.Restart?) ==>
              After(Taken(), op).state == Taken() && (InTurn(op) ==> After(Taken(), op).error.Some?)
  {
    hide After, Possible, WellFormed, Inv, Taken, Position, Accepted, BaseOf;
    ghost var t, q;
    ok, t, q := SearchSaysYes();
    PositionHolds();
    TakingIsPossible(t, q);
    TakenComesBack();
    forall op | Possible(Taken(), op) && (InTurn(op) || op.Restart?)
      ensures After(Taken(), op).state == Taken() && (InTurn(op) ==> After(Taken(), op).error.Some?)
    {
      EverythingFails(op);
    }
  }

  lemma PositionWellFormed()
    ensures WellFormed(Position())
  {
    PositionSeated();
    PositionHasTable();
    hide AllOk, Seated, Rest;
  }

  lemma PositionTempts(t: SearchState, q: SearchPlay)
    requires Accepted(t, q, q.reclaims) && BaseOf(t, HELD + [DISCARD], q) && t.table == [Sevens()] && !t.hasOpened
    ensures HasCurrent(Position()) && Position().discardPile == [DISCARD]
    ensures CanUse(Tempted(Position()), Position().table, DISCARD)
  {
    hide Accepted, BaseOf, Rest;
    assert (HELD + [DISCARD])[12] == DISCARD;
  }

  lemma TakingIsPossible(t: SearchState, q: SearchPlay)
    requires Accepted(t, q, q.reclaims) && BaseOf(t, HELD + [DISCARD], q) && t.table == [Sevens()] && !t.hasOpened
    ensures WellFormed(Position()) && Possible(Position(), TakeDiscard(true))
    ensures After(Position(), TakeDiscard(true)) == Outcome(Taken(), None)
  {
    hide Accepted, BaseOf, Position, CanUse, AllOk, Seated, DrawFromDeck, PlayTable, Discard, AddPlayer, StartGame,
         StartNextRound,
         Forfeit, EndWithoutWinner, Restored, PlayThenDiscard, DrawFromDiscard;
    PositionWellFormed();
    PositionTempts(t, q);
    TakenIs();
  }
}
