/** Why the search before opening is sure of plain uses only. After a set around the discard has led nowhere, the run
    of the same cards is filtered on whatever the search for support has left in the shared buffer: here a player is
    refused the seven of spades although laying it with two jokers as a run, beside three sixes, would open. */
module SharedBuffer {
  import opened Cards
  import opened RunSpec
  import opened RunFitting
  import opened RunScoring
  import opened Compositions
  import opened TablePlay
  import opened PlayedCards
  import opened Masks
  import opened SearchPlays
  import opened SearchChoices
  import opened DiscardSearch
  import opened DiscardComplete
  import opened SearchSelections
  import opened PlayOutcomes
  import DiscardTrap

  const SIXES: seq<Card> := [Natural(6, Hearts), Natural(6, Diamonds), Natural(6, Clubs)]
  const NATURALS: seq<Card> := [Natural(6, Hearts), Natural(6, Diamonds), Natural(6, Clubs), Natural(9, Hearts),
                                Natural(9, Diamonds), Natural(JACK, Clubs), Natural(JACK, Hearts),
                                Natural(KING, Diamonds), Natural(KING, Clubs), Natural(TWO, Hearts)]
  const HELD: seq<Card> := NATURALS + [Joker, Joker]
  const SEVEN: Card := Natural(7, Spades)
  const SEVEN_AND_JOKERS: seq<Card> := [SEVEN, Joker, Joker]

  // ---------------------------------------------------------------- what can be laid

  predicate Plain(c: Card) {
    c in NATURALS
  }

  lemma NoNeighbours(a: seq<Card>, suit: Suit, start: int)
    requires |a| >= 2 && Arrangement(a, suit, start)
    ensures !Plain(a[0]) || !Plain(a[1])
  {
    if Plain(a[0]) {
      if Plain(a[1]) {
      }
    }
  }

  lemma NaturalsDiffer()
    ensures DiscardTrap.AllDifferent(NATURALS)
  {
  }

  lemma HandOnce(c: Card)
    ensures multiset(HELD + [SEVEN])[c] <= if c == Joker then 2 else 1
    ensures c in HELD + [SEVEN] ==> Plain(c) || c == Joker || c == SEVEN
  {
    hide NATURALS;
    NaturalsDiffer();
    DiscardTrap.AtMostOnce(NATURALS, c);
    assert HELD + [SEVEN] == NATURALS + [Joker, Joker, SEVEN];
    assert multiset(HELD + [SEVEN]) == multiset(NATURALS) + multiset{Joker, Joker, SEVEN};
    if c == Joker || c == SEVEN {
      NotNatural(c);
    }
  }

  lemma NotNatural(c: Card)
    requires c == Joker || c == SEVEN
    ensures multiset(NATURALS)[c] == 0
  {
    assert c !in NATURALS;
  }

  lemma HandCounts(m: multiset<Card>)
    requires m <= multiset(HELD + [SEVEN])
    ensures forall c :: c in m ==> Plain(c) || c == Joker || c == SEVEN
    ensures m[Joker] <= 2 && forall c :: c in m && c != Joker ==> m[c] == 1
  {
    hide Plain;
    var all := multiset(HELD + [SEVEN]);
    forall c: Card
      ensures m[c] <= if c == Joker then 2 else 1
      ensures c in m ==> Plain(c) || c == Joker || c == SEVEN
    {
      HandOnce(c);
      assert m[c] <= all[c];
      assert c in all <==> c in HELD + [SEVEN];
    }
  }

  lemma BothJokers(m: multiset<Card>)
    requires |m| >= 3 && m[SEVEN] <= 1 && m[Joker] <= 2 && forall c :: c in m ==> c == SEVEN || c == Joker
    ensures m == multiset(SEVEN_AND_JOKERS)
  {
    var both := multiset(SEVEN_AND_JOKERS);
    assert both[SEVEN] == 1 && both[Joker] == 2;
    assert m <= both;
    assert |both - m| == 3 - |m|;
  }

  /** The seven goes with both jokers only. */
  lemma SevenNeedsJokers(variant: Variant, cards: seq<Card>)
    requires ValidCards(variant, cards) && multiset(cards) <= multiset(HELD + [SEVEN]) && SEVEN in cards
    ensures multiset(cards) == multiset(SEVEN_AND_JOKERS)
  {
    hide Plain;
    var m := multiset(cards);
    HandCounts(m);
    forall c | c in m
      ensures c == SEVEN || c == Joker
    {
      if Plain(c) {
        PlainIsNatural(c);
        NotWithSeven(variant, cards, c);
      }
    }
    BothJokers(m);
  }

  lemma PlainIsNatural(c: Card)
    requires Plain(c)
    ensures c.Natural? && c.rank != 7 && c.suit != Spades
  {
  }

  lemma NotWithSeven(variant: Variant, cards: seq<Card>, c: Card)
    requires ValidCards(variant, cards) && SEVEN in cards && c in cards && c.Natural?
    ensures c.rank == 7 || c.suit == Spades
  {
    if variant == Set {
      SetIffShape(cards);
      SetRankOf(cards);
    } else {
      var a, suit, start :| ArrangesAt(cards, a, suit, start);
      assert c in multiset(a) && SEVEN in multiset(a);
    }
  }

  lemma NoPlainRun(cards: seq<Card>)
    requires forall c :: c in cards ==> Plain(c)
    ensures !ValidCards(Run, cards)
  {
    hide Plain;
    if ValidCards(Run, cards) {
      var a, suit, start :| ArrangesAt(cards, a, suit, start);
      SameMultisetSameLength(cards, a);
      assert a[0] in multiset(a) && a[1] in multiset(a);
      assert a[0] in multiset(cards) && a[1] in multiset(cards);
      NoNeighbours(a, suit, start);
    }
  }

  lemma ThreeSixes(m: multiset<Card>)
    requires |m| >= 3 && forall c :: c in m ==> c in SIXES && m[c] == 1
    ensures m == multiset(SIXES)
  {
    var sixes := multiset(SIXES);
    assert m <= sixes;
    assert |sixes - m| == 3 - |m|;
  }

  /** The other natural cards make the three sixes only. */
  lemma OnlySixes(variant: Variant, cards: seq<Card>)
    requires ValidCards(variant, cards) && multiset(cards) <= multiset(HELD + [SEVEN])
    requires SEVEN !in cards && Joker !in cards
    ensures variant == Set && multiset(cards) == multiset(SIXES)
  {
    PlainCards(cards);
    NoPlainRun(cards);
    SetIffShape(cards);
    hide Plain;
    forall c | c in cards
      ensures c in SIXES
    {
      SixesOnly(cards, c);
    }
    HandCounts(multiset(cards));
    InBoth(cards);
    ThreeSixes(multiset(cards));
  }

  lemma PlainCards(cards: seq<Card>)
    requires multiset(cards) <= multiset(HELD + [SEVEN]) && SEVEN !in cards && Joker !in cards
    ensures forall c :: c in cards ==> Plain(c)
  {
    hide Plain;
    HandCounts(multiset(cards));
    InBoth(cards);
  }

  lemma InBoth(cards: seq<Card>)
    ensures forall c :: c in cards <==> c in multiset(cards)
    ensures |multiset(cards)| == |cards|
  {
  }

  lemma SixesOnly(cards: seq<Card>, c: Card)
    requires |cards| >= 3 && SetShape(cards) && Plain(cards[0]) && Plain(cards[1]) && Plain(cards[2])
    requires c in cards && Plain(c)
    ensures c in SIXES
  {
    SetRankOf(cards);
    assert cards[0].rank == 6;
  }

  // ---------------------------------------------------------------- as a set the seven is worth too little

  ghost function Value(m: multiset<Card>): nat {
    21 * m[SEVEN] + 18 * m[SIXES[0]]
  }

  lemma SetsOfThree()
    ensures ValidCards(Set, SEVEN_AND_JOKERS) && Points(Set, SEVEN_AND_JOKERS) == 21
    ensures ValidCards(Set, SIXES) && Points(Set, SIXES) == 18
  {
    hide NATURALS, HELD;
    SetIffShape(SEVEN_AND_JOKERS);
    SetIffShape(SIXES);
    SetRankOf(SEVEN_AND_JOKERS);
    SetRankOf(SIXES);
    assert SEVEN_AND_JOKERS[0] == SEVEN && SIXES[0].rank == 6;
  }

  lemma ValuesOfThree()
    ensures Value(multiset(SEVEN_AND_JOKERS)) == 21 && Value(multiset(SIXES)) == 18
  {
    hide NATURALS, HELD;
  }

  lemma WorthAsSet(variant: Variant, cards: seq<Card>)
    requires ValidCards(variant, cards) && multiset(cards) <= multiset(HELD + [SEVEN])
    requires SEVEN in cards ==> variant == Set
    requires SEVEN !in cards ==> Joker !in cards
    ensures Points(variant, cards) == Value(multiset(cards))
  {
    hide NATURALS, HELD, SIXES, SEVEN_AND_JOKERS, Value, Points, ValidCards;
    SetsOfThree();
    ValuesOfThree();
    if SEVEN in cards {
      SevenNeedsJokers(variant, cards);
      PointsIgnoreOrder(Set, SEVEN_AND_JOKERS, cards);
    } else {
      OnlySixes(variant, cards);
      PointsIgnoreOrder(Set, SIXES, cards);
    }
  }

  lemma {:induction false} ValueOfAll(hand: seq<Card>, masks: seq<nat>, variants: seq<Variant>)
    requires MasksValid(hand, masks, variants)
    requires forall i :: 0 <= i < |masks| ==>
               Points(variants[i], MaskCards(hand, masks[i])) == Value(multiset(MaskCards(hand, masks[i])))
    ensures MaskPoints(hand, masks, variants) == Value(MaskSum(hand, masks))
  {
    hide Points, ValidCards, MaskCards;
    if masks != [] {
      var k := |masks| - 1;
      ValueOfAll(hand, masks[..k], variants[..k]);
    }
  }

  lemma {:induction false} OneOfSum(hand: seq<Card>, masks: seq<nat>, i: nat)
    requires i < |masks|
    ensures multiset(MaskCards(hand, masks[i])) <= MaskSum(hand, masks)
  {
    hide MaskCards;
    var k := |masks| - 1;
    if i < k {
      OneOfSum(hand, masks[..k], i);
    }
  }

  lemma {:induction false} TwoOfSum(hand: seq<Card>, masks: seq<nat>, i: nat, j: nat)
    requires i < j < |masks|
    ensures multiset(MaskCards(hand, masks[i])) + multiset(MaskCards(hand, masks[j])) <= MaskSum(hand, masks)
  {
    hide MaskCards;
    var k := |masks| - 1;
    if j < k {
      TwoOfSum(hand, masks[..k], i, j);
    } else {
      OneOfSum(hand, masks[..k], i);
    }
  }

  lemma {:induction false} SomeOfSum(hand: seq<Card>, masks: seq<nat>, c: Card) returns (i: nat)
    requires c in MaskSum(hand, masks)
    ensures i < |masks| && c in MaskCards(hand, masks[i])
  {
    hide MaskCards;
    var k := |masks| - 1;
    if c in MaskCards(hand, masks[k]) {
      i := k;
    } else {
      i := SomeOfSum(hand, masks[..k], c);
    }
  }

  /** Beside the seven nobody has a joker. */
  lemma NoOtherJoker(hand: seq<Card>, masks: seq<nat>, variants: seq<Variant>, i: nat, j: nat)
    requires MasksValid(hand, masks, variants) && MaskSum(hand, masks) <= multiset(HELD + [SEVEN])
    requires i < |masks| && j < |masks| && SEVEN in MaskCards(hand, masks[i])
    ensures j != i ==> SEVEN !in MaskCards(hand, masks[j]) && Joker !in MaskCards(hand, masks[j])
  {
    hide ValidCards, MaskCards;
    if j != i {
      var a, b := multiset(MaskCards(hand, masks[i])), multiset(MaskCards(hand, masks[j]));
      if i < j {
        TwoOfSum(hand, masks, i, j);
      } else {
        TwoOfSum(hand, masks, j, i);
      }
      SumOfBoth(a, b, MaskSum(hand, masks));
      SevenNeedsJokers(variants[i], MaskCards(hand, masks[i]));
      NothingLeftFor(a, b);
    }
  }

  lemma SumOfBoth(a: multiset<Card>, b: multiset<Card>, all: multiset<Card>)
    requires a + b <= all && all <= multiset(HELD + [SEVEN])
    ensures a + b <= multiset(HELD + [SEVEN]) && a <= multiset(HELD + [SEVEN])
  {
    assert a <= a + b;
  }

  lemma NothingLeftFor(a: multiset<Card>, b: multiset<Card>)
    requires a == multiset(SEVEN_AND_JOKERS) && a + b <= multiset(HELD + [SEVEN])
    ensures SEVEN !in b && Joker !in b
  {
    hide Plain;
    HandCounts(a + b);
    assert a[SEVEN] == 1 && a[Joker] == 2;
    assert (a + b)[SEVEN] == 1 + b[SEVEN] && (a + b)[Joker] == 2 + b[Joker];
  }

  lemma ValueBound(m: multiset<Card>)
    requires m <= multiset(HELD + [SEVEN])
    ensures Value(m) <= 39
  {
    hide NATURALS, HELD, Plain;
    HandCounts(m);
  }

  /** Whoever lays the seven as a set has 39 points at most. */
  lemma TooFewPoints(hand: seq<Card>, masks: seq<nat>, variants: seq<Variant>, i: nat)
    requires MasksValid(hand, masks, variants) && MaskSum(hand, masks) <= multiset(HELD + [SEVEN])
    requires i < |masks| && SEVEN in MaskCards(hand, masks[i]) && variants[i] == Set
    ensures MaskPoints(hand, masks, variants) <= 39
  {
    hide ValidCards, MaskCards, Points, Value, HELD, NATURALS, MaskSum, MaskPoints;
    forall j | 0 <= j < |masks|
      ensures Points(variants[j], MaskCards(hand, masks[j])) == Value(multiset(MaskCards(hand, masks[j])))
    {
      NoOtherJoker(hand, masks, variants, i, j);
      OneOfSum(hand, masks, j);
      WorthAsSet(variants[j], MaskCards(hand, masks[j]));
    }
    ValueOfAll(hand, masks, variants);
    ValueBound(MaskSum(hand, masks));
  }

  // ---------------------------------------------------------------- as a run it is filtered on other cards

  /** A mask of the first places selects the cards there. */
  lemma {:induction false} LowCards(cards: seq<Card>, mask: nat, k: nat)
    requires k <= |cards| && forall i: nat :: i < |cards| ==> (Bit(mask, i) <==> i < k)
    ensures MaskCards(cards, mask) == cards[..k]
  {
    if |cards| > k {
      var n := |cards| - 1;
      LowCards(cards[..n], mask, k);
      assert cards[..n][..k] == cards[..k];
    } else if cards != [] {
      var n := |cards| - 1;
      LowCards(cards[..n], mask, n);
      assert cards[..n] + [cards[n]] == cards[..k];
    }
  }

  lemma {:induction false} HighBitClear(mask: nat, n: nat)
    requires mask < Pow2(n + 1) && !Bit(mask, n)
    ensures mask < Pow2(n)
  {
    if n > 0 {
      HighBitClear(mask / 2, n - 1);
    }
  }

  /** Ten ones. */
  const FIRST_TEN: nat := 1023

  lemma {:induction false} BitsOfOnes(n: nat, i: nat)
    ensures Bit(Pow2(n) - 1, i) <==> i < n
  {
    if n == 0 {
      ZeroBits(i);
    } else if i > 0 {
      BitsOfOnes(n - 1, i - 1);
    }
  }

  lemma FirstTen()
    ensures FIRST_TEN == Pow2(10) - 1 && Pow2(12) == 4096
    ensures forall i: nat :: Bit(FIRST_TEN, i) <==> i < 10
  {
    assert Pow2(5) == 32;
    forall i: nat
      ensures Bit(FIRST_TEN, i) <==> i < 10
    {
      BitsOfOnes(10, i);
    }
  }

  lemma {:induction false} CommonBit(a: nat, b: nat)
    requires forall i: nat :: !Bit(a, i) || !Bit(b, i)
    ensures And(a, b) == 0
  {
    if And(a, b) != 0 {
      var i := SomeBit(And(a, b));
      AndBits(a, b, i);
    }
  }

  lemma NoCommonBit(a: nat, b: nat, i: nat)
    requires And(a, b) == 0 && Bit(a, i)
    ensures !Bit(b, i)
  {
    AndBits(a, b, i);
    ZeroBits(i);
  }

  /** Beside the seven and the jokers, the last selection is that of the ten other cards. */
  lemma TenAreLast(s: SearchState, mask: nat)
    requires s == BaseState(HELD, SEVEN, [], false)
    requires Bit(mask, 10) && Bit(mask, 11) && forall i: nat :: i < 10 ==> !Bit(mask, i)
    ensures LastFree(s, mask, FIRST_TEN)
  {
    hide And, Bit, Pow2;
    FirstTen();
    CommonBit(mask, FIRST_TEN);
    forall m: nat | m < Pow2(12) && And(mask, m) == 0
      ensures m <= FIRST_TEN
    {
      NoCommonBit(mask, m, 10);
      NoCommonBit(mask, m, 11);
      HighBitClear(m, 11);
      HighBitClear(m, 10);
    }
    assert |s.hand| == 13;
  }

  lemma TenCards(s: SearchState)
    requires s == BaseState(HELD, SEVEN, [], false)
    ensures MaskCards(s.hand, FIRST_TEN) == NATURALS
  {
    hide Bit;
    FirstTen();
    LowCards(s.hand, FIRST_TEN, 10);
    assert s.hand[..10] == NATURALS;
  }

  /** They have no use together, and the first three are no run. */
  lemma TenAreUseless(s: SearchState)
    requires s == BaseState(HELD, SEVEN, [], false)
    ensures Useless(s, FIRST_TEN) && |MaskCards(s.hand, FIRST_TEN)| == 10
    ensures !ValidCards(Run, MaskCards(s.hand, FIRST_TEN)[..3])
  {
    TenCards(s);
    var cards := NATURALS;
    assert cards[..3] == SIXES;
    NotOneSuit(cards);
    NotOneSuit(SIXES);
  }

  lemma OneSuitOnly(cards: seq<Card>, c: Card, d: Card)
    requires ValidCards(Run, cards) && c in cards && d in cards && c.Natural? && d.Natural?
    ensures c.suit == d.suit
  {
    var a, suit, start :| ArrangesAt(cards, a, suit, start);
    assert c in multiset(a) && d in multiset(a);
  }

  lemma NotOneSuit(cards: seq<Card>)
    requires |cards| >= 2 && cards[0] == SIXES[0] && cards[1] == SIXES[1]
    ensures !ValidCards(Run, cards)
  {
    hide ValidCards;
    if ValidCards(Run, cards) {
      OneSuitOnly(cards, cards[0], cards[1]);
    }
  }

  lemma SelectedThere(s: SearchState, mask: nat, i: nat)
    requires s == BaseState(HELD, SEVEN, [], false) && i < 10
    requires multiset(MaskCards(s.hand, mask)) == multiset(SEVEN_AND_JOKERS)
    ensures !Bit(mask, i)
  {
    hide Bit, MaskCards;
    var c := s.hand[i];
    assert c == (NATURALS)[i] && Plain(c);
    PlainIsNatural(c);
    assert c !in multiset(SEVEN_AND_JOKERS);
    if Bit(mask, i) {
      BitSelects(s.hand, mask, i);
      InSelection(s.hand, mask, c);
    }
  }

  lemma InSelection(cards: seq<Card>, mask: nat, c: Card)
    requires c in MaskCards(cards, mask)
    ensures c in multiset(MaskCards(cards, mask))
  {
  }

  lemma FrontOfHand(s: SearchState)
    requires s == BaseState(HELD, SEVEN, [], false)
    ensures |s.hand| == 13 && s.hand[12] == SEVEN && s.hand[11] == Joker && s.hand[10] == Joker
    ensures s.hand[..12][..11] == s.hand[..11] && s.hand[..11][..10] == s.hand[..10]
  {
  }

  /** The places the seven and the jokers take. */
  lemma PlacesOfSeven(s: SearchState, mask: nat)
    requires s == BaseState(HELD, SEVEN, [], false)
    requires multiset(MaskCards(s.hand, mask)) == multiset(SEVEN_AND_JOKERS)
    ensures Bit(mask, 10) && Bit(mask, 11) && Bit(mask, 12) && forall i: nat :: i < 10 ==> !Bit(mask, i)
  {
    hide Bit, MaskCards;
    forall i: nat | i < 10
      ensures !Bit(mask, i)
    {
      SelectedThere(s, mask, i);
    }
    FrontOfHand(s);
    SelectedLast(s.hand, mask);
    SelectedLast(s.hand[..12], mask);
    SelectedLast(s.hand[..11], mask);
    LowNothing(s.hand[..10], mask);
    TwoJokers(if Bit(mask, 10) then 1 else 0, if Bit(mask, 11) then 1 else 0, if Bit(mask, 12) then 1 else 0,
              multiset(MaskCards(s.hand, mask)));
  }

  lemma TwoJokers(a: nat, b: nat, c: nat, m: multiset<Card>)
    requires a <= 1 && b <= 1 && c <= 1 && m == multiset(SEVEN_AND_JOKERS)
    requires m[Joker] == a + b && m[SEVEN] == c
    ensures a == b == c == 1
  {
  }

  lemma LowNothing(cards: seq<Card>, mask: nat)
    requires forall i: nat :: i < |cards| ==> !Bit(mask, i)
    ensures MaskCards(cards, mask) == []
  {
    LowCards(cards, mask, 0);
  }

  /** So the run is not let through. */
  lemma RunIsNotRead(s: SearchState, mask: nat)
    requires s == BaseState(HELD, SEVEN, [], false)
    requires multiset(MaskCards(s.hand, mask)) == multiset(SEVEN_AND_JOKERS)
    ensures RunOfSet(s, mask, Run) && !ReadAsRun(s, mask)
  {
    hide MaskCards, LastFree, Useless, ValidCards, Bit;
    PlacesOfSeven(s, mask);
    TenAreLast(s, mask);
    TenAreUseless(s);
    SetsOfThree();
    SameSet(MaskCards(s.hand, mask));
    assert LeftInBuffer(s, mask, FIRST_TEN);
  }

  lemma SameSet(cards: seq<Card>)
    requires multiset(cards) == multiset(SEVEN_AND_JOKERS)
    ensures ValidCards(Set, cards) && |cards| == 3
  {
    SetsOfThree();
    PointsIgnoreOrder(Set, SEVEN_AND_JOKERS, cards);
    assert |multiset(cards)| == |cards|;
  }

  // ---------------------------------------------------------------- the seven is refused, and could be laid

  /** What would be found: nothing is on the table, so it is made of new compositions. */
  lemma OnlyCompositions(s: SearchState, q: SearchPlay)
    requires s == BaseState(HELD, SEVEN, [], false) && ValidPlay(s, q) && q.reclaims == []
    ensures q.additions == [] && MasksValid(s.hand, q.masks, q.variants)
    ensures MaskPoints(s.hand, q.masks, q.variants) >= 40
  {
    hide CompOk, MaskCards, ValidCards, Points;
    var additions := AdditionsOf(s.hand, q.additions);
    assert ReclaimAll([], []) == Some(Reclaiming([], [], [], []));
    NoAdditions(additions);
  }

  lemma {:induction false} NoAdditions(additions: seq<Addition>)
    ensures AddAll(Adding([], [], [], 0), additions).Some? ==> additions == []
    ensures TableMoves([], [], []).Some? ==> TableMoves([], [], []).value.points == 0
  {
    if additions != [] {
      NoAdditions(additions[..|additions| - 1]);
    }
  }

  lemma SevenIsIn(s: SearchState, q: SearchPlay) returns (i: nat)
    requires s == BaseState(HELD, SEVEN, [], false) && Covers(s, q, true) && q.additions == [] && q.reclaims == []
    ensures MaskSum(s.hand, q.masks) <= multiset(HELD + [SEVEN])
    ensures i < |q.masks| && SEVEN in MaskCards(s.hand, q.masks[i])
  {
    hide MaskCards, MaskSum, Bit, Pow2;
    assert AdditionsOf(s.hand, []) == [] && AdditionCards([]) == multiset{} && ReplacementCards([]) == multiset{};
    MaskCardsSubset(s.hand, q.used);
    FrontOfHand(s);
    BitSelects(s.hand, q.used, 12);
    InSelection(s.hand, q.used, SEVEN);
    i := SomeOfSum(s.hand, q.masks, SEVEN);
  }

  lemma NotAsRun(s: SearchState, q: SearchPlay, i: nat)
    requires s == BaseState(HELD, SEVEN, [], false) && |q.masks| == |q.variants| && i < |q.masks|
    requires q.reclaims == [] && RunFiltered(s, q)
    requires multiset(MaskCards(s.hand, q.masks[i])) == multiset(SEVEN_AND_JOKERS)
    ensures q.variants[i] == Set
  {
    hide MaskCards, ReadAsRun, RunOfSet;
    if q.variants[i] == Run {
      RunIsNotRead(s, q.masks[i]);
    }
  }

  lemma NotAccepted(s: SearchState, q: SearchPlay)
    requires s == BaseState(HELD, SEVEN, [], false)
    ensures !Accepted(s, q, [])
  {
    hide ValidPlay, Covers, MaskCards, MasksValid, MaskPoints, MaskSum, RunFiltered, ValidCards;
    if Accepted(s, q, []) {
      OnlyCompositions(s, q);
      var i := SevenIsIn(s, q);
      OneOfSum(s.hand, q.masks, i);
      ValidAt(s.hand, q.masks, q.variants, i);
      SevenNeedsJokers(q.variants[i], MaskCards(s.hand, q.masks[i]));
      NotAsRun(s, q, i);
      TooFewPoints(s.hand, q.masks, q.variants, i);
    }
  }

  lemma ValidAt(hand: seq<Card>, masks: seq<nat>, variants: seq<Variant>, i: nat)
    requires MasksValid(hand, masks, variants) && i < |masks|
    ensures ValidCards(variants[i], MaskCards(hand, masks[i]))
  {
  }

  /** The search refuses the seven. */
  method SevenIsRefused() returns (ok: bool)
    ensures !ok
  {
    hide Accepted, BaseOf, NothingUses;
    ghost var s, q;
    ok, s, q := CanTakeDiscardNow(HELD, [SEVEN], [], false);
    if ok {
      NoReclaims([], q.reclaims);
      NotAccepted(s, q);
    }
  }

  lemma NoReclaims(table: seq<Comp>, reclaims: seq<JokerReclaim>)
    requires OneAtOnce(table, reclaims)
    ensures reclaims != [] ==> table != []
  {
    if reclaims != [] {
      assert 0 <= reclaims[0].compositionIndex < |table|;
    }
  }

  lemma SevenAsRun()
    ensures ValidCards(Run, SEVEN_AND_JOKERS) && Points(Run, SEVEN_AND_JOKERS) >= 24
  {
    assert ArrangesAt(SEVEN_AND_JOKERS, SEVEN_AND_JOKERS, Spades, 7);
    BestTotalIsMaximum(SEVEN_AND_JOKERS);
    assert WindowValue(7, 3) == 24;
    DiscardTrap.NotAllJokers(SEVEN_AND_JOKERS, 0);
  }

  lemma NamedThere(c: Comp, d: Comp)
    requires multiset(c.cards) == multiset(SEVEN_AND_JOKERS) && multiset(d.cards) == multiset(SIXES)
    ensures Named([c, d], [], []) == multiset(SEVEN_AND_JOKERS) + multiset(SIXES)
  {
    assert [c, d][..1] == [c] && [c][..0] == [];
    assert TableCards([c]) == multiset(c.cards);
    assert AdditionCards([]) == multiset{} && ReplacementCards([]) == multiset{};
  }

  lemma PointsThere(c: Comp, d: Comp)
    requires CompOk(c) && CompOk(d) && CompPoints(c) >= 24 && CompPoints(d) == 18
    ensures TableMoves([], [], []).Some? && AllOk([c, d]) && Gained([], [c, d], [], []) >= 42
  {
    hide CompOk, Points, ValidCards;
    OkHasPoints(c);
    OkHasPoints(d);
    assert [c, d][..1] == [c] && [c][..0] == [];
    assert TablePoints([c]) == CompPoints(c);
    assert ReclaimAll([], []) == Some(Reclaiming([], [], [], []));
    assert AddAll(Adding([], [], [], 0), []) == Some(Adding([], [], [], 0));
    assert FinishAll(Finishing([], [], []), []).Some?;
  }

  /** The executor would carry it out, as a run beside the sixes. */
  lemma SevenCouldOpen() returns (comps: seq<Comp>)
    ensures AllOk(comps) && UsesCard(comps, [], [], SEVEN)
    ensures ApplyTablePlay(TableState(HELD + [SEVEN], [], false), comps, [], []).Success?
  {
    hide CompOk, TableMoves, Named, ApplyTablePlay, UsesCard, Gained, Submitted, ValidCards, Points, CompPoints,
         LaidComp, Layable;
    SevenAsRun();
    SetsOfThree();
    var c := Arrange(SEVEN_AND_JOKERS, Run);
    var d := Arrange(SIXES, Set);
    LaidIff(c);
    LaidIff(d);
    comps := [c, d];
    PointsThere(c, d);
    CarriedOut(c, d);
  }

  lemma CarriedOut(c: Comp, d: Comp)
    requires AllOk([c, d]) && Layable(c) && Layable(d) && TableMoves([], [], []).Some?
    requires multiset(c.cards) == multiset(SEVEN_AND_JOKERS) && multiset(d.cards) == multiset(SIXES)
    requires Gained([], [c, d], [], []) >= 42
    ensures UsesCard([c, d], [], [], SEVEN)
    ensures ApplyTablePlay(TableState(HELD + [SEVEN], [], false), [c, d], [], []).Success?
  {
    hide CompOk, TableMoves, Named, ApplyTablePlay, UsesCard, Gained, Layable, HasOwnComposition, HELD, InHand;
    var s := TableState(HELD + [SEVEN], [], false);
    NamedThere(c, d);
    UsesCardIff([c, d], [], [], SEVEN);
    PlayAnswer(s, [c, d], [], []);
    SixesAreHeld(s, [c, d], d);
    EnoughHeld(s);
  }

  lemma SixesFirst()
    ensures |NATURALS| == 10 && NATURALS == SIXES + NATURALS[3..]
  {
  }

  lemma HandParts()
    ensures |NATURALS| == 10
    ensures multiset(HELD + [SEVEN]) == multiset(SEVEN_AND_JOKERS) + multiset(SIXES) + multiset(NATURALS[3..])
  {
    hide NATURALS, SIXES;
    SixesFirst();
    assert HELD + [SEVEN] == SIXES + NATURALS[3..] + [Joker, Joker, SEVEN];
    assert multiset([Joker, Joker, SEVEN]) == multiset(SEVEN_AND_JOKERS);
  }

  lemma SixesAreHeld(s: TableState, comps: seq<Comp>, d: Comp)
    requires s.hand == HELD + [SEVEN] && |comps| == 2 && comps[1] == d && multiset(d.cards) == multiset(SIXES)
    ensures HasOwnComposition(s.hand, comps)
  {
    hide NATURALS, SIXES, HELD;
    HandParts();
    assert forall c: Card :: multiset(comps[1].cards)[c] <= multiset(s.hand)[c];
  }

  lemma EnoughHeld(s: TableState)
    requires s.hand == HELD + [SEVEN]
    ensures var named := multiset(SEVEN_AND_JOKERS) + multiset(SIXES);
            named <= InHand(s, []) && named != InHand(s, [])
  {
    hide NATURALS, SIXES, HELD, SEVEN_AND_JOKERS;
    HandParts();
    assert InHand(s, []) == multiset(s.hand);
    MoreThan(multiset(SEVEN_AND_JOKERS) + multiset(SIXES), NATURALS[3..]);
  }

  lemma MoreThan(named: multiset<Card>, rest: seq<Card>)
    requires rest != []
    ensures named <= named + multiset(rest) && named != named + multiset(rest)
  {
    assert |named + multiset(rest)| == |named| + |rest|;
  }
}
