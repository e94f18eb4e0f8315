/** Laying out a run that has been laid out before: a run that this changes, and why laying a built run on
    the table never does. */
module Relaying {
  import opened Cards
  import opened RunSpec
  import opened RunLayout
  import opened RunOrdering
  import opened Compositions

  /** A run that is recognised as it stands is left as it is. */
  lemma OrderedIsUnchanged(cards: seq<Card>)
    requires IsRun(cards) && CardsAreOrdered(cards)
    ensures Normalized(cards) == cards
  {
    BestRunOrderLaysOut(cards);
  }

  // ---------------------------------------------------------------- a run and its reversal

  lemma TwoNaturals(cards: seq<Card>) returns (i: int, j: int)
    requires JokerCount(cards) + 2 <= |cards|
    ensures 0 <= i < j < |cards| && cards[i].Natural? && cards[j].Natural?
  {
    var c := SomeNatural(multiset(cards));
    var x :| 0 <= x < |cards| && cards[x] == c;
    var rest := cards[..x] + cards[x + 1..];
    assert cards == cards[..x] + [cards[x]] + cards[x + 1..];
    var d := SomeNatural(multiset(rest));
    var y :| 0 <= y < |rest| && rest[y] == d;
    var z := if y < x then y else y + 1;
    assert cards[z] == d;
    i, j := if x < z then x else z, if x < z then z else x;
  }

  /** A card stands on one position, or it is an ace and stands on one of two. */
  lemma MirrorPosition(a: seq<Card>, suit: Suit, start: int, other: int, i: int)
    requires Arrangement(a, suit, start) && Arrangement(Reversed(a), suit, other) && 0 <= i < |a| && a[i].Natural?
    ensures var p, q := start + i, other + |a| - 1 - i; p == q || (p == 1 && q == 14) || (p == 14 && q == 1)
  {
    assert Reversed(a)[|a| - 1 - i] == a[i];
  }

  /** Two naturals fix the direction of a run, except for two aces around a run of jokers. */
  lemma DirectionIsFixed(a: seq<Card>, suit: Suit, start: int, other: int, i: int, j: int)
    requires Arrangement(a, suit, start) && Arrangement(Reversed(a), suit, other)
    requires 0 <= i < j < |a| && a[i].Natural? && a[j].Natural?
    ensures Reversed(a) == a
  {
    MirrorPosition(a, suit, start, other, i);
    MirrorPosition(a, suit, start, other, j);
    assert |a| == 14 && i == 0 && j == 13;
    forall k | 0 <= k < 14
      ensures Reversed(a)[k] == a[k]
    {
      if 0 < k < 13 && a[k].Natural? {
        MirrorPosition(a, suit, start, other, k);
      }
      if 0 < k < 13 && a[13 - k].Natural? {
        MirrorPosition(a, suit, start, other, 13 - k);
      }
    }
  }

  // ---------------------------------------------------------------- a single natural

  /** One natural card at index `i`, jokers elsewhere. */
  predicate LoneAt(cards: seq<Card>, i: int, c: Card) {
    0 <= i < |cards| && c.Natural? && cards[i] == c && forall j :: 0 <= j < |cards| && j != i ==> cards[j].Joker?
  }

  lemma LoneNatural(cards: seq<Card>, c: Card) returns (i: int)
    requires JokerCount(cards) + 1 == |cards| && c.Natural? && c in cards
    ensures LoneAt(cards, i, c)
  {
    i :| 0 <= i < |cards| && cards[i] == c;
    var rest := cards[..i] + cards[i + 1..];
    assert cards == cards[..i] + [cards[i]] + cards[i + 1..];
    AllJokers(rest);
    forall j | 0 <= j < |cards| && j != i
      ensures cards[j].Joker?
    {
      assert cards[j] == rest[if j < i then j else j - 1];
    }
  }

  lemma {:induction false} LoneMatches(a: seq<Card>, b: seq<Card>, i: int, j: int, c: Card, k: nat)
    requires LoneAt(a, i, c) && LoneAt(b, j, c) && i != j && |a| == |b| && k <= |a|
    ensures MatchCount(a, b, k) == k - (if i < k then 1 else 0) - (if j < k then 1 else 0)
  {
    if k > 0 {
      LoneMatches(a, b, i, j, c, k - 1);
    }
  }

  /** With one natural every other placement matches equally well, so a scan that neither stops nor
      ties has met one placement only. */
  lemma {:induction false} OnlyOnePlacement(cards: seq<Card>, list: seq<Candidate>, c: Card)
    requires JokerCount(cards) + 1 == |cards| && c.Natural? && c in cards
    requires forall k :: 0 <= k < |list| ==> multiset(list[k].ordered) == multiset(cards)
    requires ScanList(cards, list).Running? && list != []
    ensures ScanList(cards, list).best.Some? && forall k :: 0 <= k < |list| ==>
              list[k] == ScanList(cards, list).best.value
  {
    var n := |list| - 1;
    ScanPicks(cards, list);
    if n > 0 {
      OnlyOnePlacement(cards, list[..n], c);
      SamePlaces(cards, list[n].ordered, c);
      SamePlaces(cards, list[0].ordered, c);
      assert list[..n][0] == list[0];
      ScanPicks(cards, list[..n]);
    }
  }

  lemma SamePlaces(cards: seq<Card>, other: seq<Card>, c: Card)
    requires JokerCount(cards) + 1 == |cards| && c.Natural? && c in cards && multiset(other) == multiset(cards)
    ensures |other| == |cards| && (other != cards ==> Matches(cards, other) == |cards| - 2)
  {
    SameMultisetSameLength(cards, other);
    assert c in multiset(other);
    var i := LoneNatural(cards, c);
    var j := LoneNatural(other, c);
    if i == j {
      assert other == cards;
    } else {
      LoneMatches(cards, other, i, j, c, |cards|);
    }
  }

  // ---------------------------------------------------------------- what a layout is recognised as

  lemma RunSize(cards: seq<Card>)
    requires IsRun(cards)
    ensures 3 <= |cards| <= 14
  {
  }

  lemma OrderedOf(cards: seq<Card>)
    requires IsRun(cards) && JokerCount(cards) != |cards| && BestRunOrder(cards).Some?
    ensures var list, r := Candidates(multiset(cards), SuitOf(multiset(cards)), |cards|), BestRunOrder(cards).value;
            Candidate(r.ordered, r.representations) in list &&
            (r.ordered != cards ==> ScanList(cards, list) == Running(Some(Candidate(r.ordered, r.representations))))
  {
    hide Candidates, SuitOf, IsRun, Consider;
    RunSize(cards);
    ScanPicks(cards, Candidates(multiset(cards), SuitOf(multiset(cards)), |cards|));
  }

  lemma AllArrange(cards: seq<Card>, list: seq<Candidate>)
    requires IsRun(cards) && list == Candidates(multiset(cards), SuitOf(multiset(cards)), |cards|)
    ensures forall k :: 0 <= k < |list| ==> multiset(list[k].ordered) == multiset(cards)
  {
    forall k | 0 <= k < |list|
      ensures multiset(list[k].ordered) == multiset(cards)
    {
      CandidatesSound(cards, SuitOf(multiset(cards)), list[k]);
    }
  }

  /** The layout chosen for a run with one natural is recognised. */
  lemma LoneLayoutIsOrdered(cards: seq<Card>)
    requires IsRun(cards) && JokerCount(cards) + 1 == |cards| && BestRunOrder(cards).Some?
    ensures var ordered := BestRunOrder(cards).value.ordered; IsRun(ordered) && CardsAreOrdered(ordered)
  {
    var list := Candidates(multiset(cards), SuitOf(multiset(cards)), |cards|);
    var ordered := BestRunOrder(cards).value.ordered;
    BestRunOrderLaysOut(cards);
    SameRun(cards, ordered);
    if ordered != cards {
      OrderedOf(cards);
      AllArrange(cards, list);
      var c := SomeNatural(multiset(cards));
      OnlyOnePlacement(cards, list, c);
      FirstIsRecognised(ordered);
    }
  }

  lemma LaidOutAt(cards: seq<Card>) returns (suit: Suit, start: int)
    requires IsRun(cards) && BestRunOrder(cards).Some?
    ensures ArrangesAt(cards, BestRunOrder(cards).value.ordered, suit, start)
  {
    BestRunOrderLaysOut(cards);
    var r := BestRunOrder(cards).value;
    suit, start :| LaysOut(cards, r.ordered, r.representations, suit, start);
  }

  lemma SymmetricLayout(a: seq<Card>, suit: Suit, start: int)
    requires Arrangement(a, suit, start) && JokerCount(a) + 2 <= |a|
    requires IsRun(Reversed(a)) && CardsAreOrdered(Reversed(a))
    ensures Reversed(a) == a
  {
    var otherSuit, other := LaidOutAt(Reversed(a));
    BestRunOrderLaysOut(Reversed(a));
    hide IsRun, CardsAreOrdered;
    var i, j := TwoNaturals(a);
    assert Reversed(a)[|a| - 1 - i] == a[i];
    DirectionIsFixed(a, suit, start, other, i, j);
  }

  /** If the layout of a run is recognised from its other end it is recognised as it stands. */
  lemma LayoutFacesForward(cards: seq<Card>)
    requires IsRun(cards) && BestRunOrder(cards).Some?
    ensures var ordered := BestRunOrder(cards).value.ordered;
            IsRun(ordered) && (ReverseOrdered(ordered) ==> CardsAreOrdered(ordered))
  {
    var ordered := BestRunOrder(cards).value.ordered;
    BestRunOrderLaysOut(cards);
    SameRun(cards, ordered);
    ReversedRun(ordered);
    if JokerCount(cards) + 1 == |cards| {
      LoneLayoutIsOrdered(cards);
    } else if JokerCount(cards) < |cards| && CardsAreOrdered(Reversed(ordered)) {
      var suit, start := LaidOutAt(cards);
      SymmetricLayout(ordered, suit, start);
    }
  }

  /** What the constructor lays out is recognised forwards if it is recognised at all. */
  lemma NormalizedFacesForward(cards: seq<Card>)
    requires IsRun(cards)
    ensures var n := Normalized(cards); IsRun(n) && (ReverseOrdered(n) ==> CardsAreOrdered(n))
  {
    NormalizedKeepsCards(cards);
    ReversedRun(cards);
    if BestRunOrder(cards).Some? {
      LayoutFacesForward(cards);
    } else if BestRunOrder(Reversed(cards)).Some? {
      LayoutFacesForward(Reversed(cards));
    }
  }

  // ---------------------------------------------------------------- a layout that does not last

  const FIVE := Natural(5, Hearts)
  const EIGHT := Natural(8, Hearts)

  /** Three placements of a five, an eight and four jokers: the window starts at 3, 4 or 5. */
  const FROM_THREE: seq<Card> := [Joker, Joker, FIVE, Joker, Joker, EIGHT]
  const FROM_FOUR: seq<Card> := [Joker, FIVE, Joker, Joker, EIGHT, Joker]
  const FROM_FIVE: seq<Card> := [FIVE, Joker, Joker, EIGHT, Joker, Joker]
  const GIVEN: seq<Card> := [Joker, Joker, Joker, EIGHT, FIVE, Joker]

  ghost predicate ExampleHand(m: multiset<Card>) {
    m == multiset{Joker, Joker, Joker, Joker, FIVE, EIGHT}
  }

  lemma ExampleReadings(m: multiset<Card>, aceLow: bool, k: int)
    requires ExampleHand(m)
    ensures ReadingFits(m, Hearts, aceLow, k, 6) <==> 3 <= k <= 5
  {
    assert FIVE in m && EIGHT in m;
  }

  lemma ExampleLayout(m: multiset<Card>, aceLow: bool, k: int, ordered: seq<Card>)
    requires ExampleHand(m) && 3 <= k <= 5
    requires ordered == if k == 3 then FROM_THREE else if k == 4 then FROM_FOUR else FROM_FIVE
    ensures CandidateAt(m, Hearts, k, aceLow, 6) == Candidate(ordered, RepresentationsOf(ordered, Hearts, k))
  {
    var r := Layout(m, Hearts, aceLow, k, 6);
    forall i | 0 <= i < 6
      ensures r[i] == ordered[i]
    {
      assert r[i] == CardOn(m, Hearts, aceLow, k + i);
    }
    assert r == ordered;
  }

  ghost function Placements(): seq<Candidate> {
    [Candidate(FROM_THREE, RepresentationsOf(FROM_THREE, Hearts, 3)),
     Candidate(FROM_FOUR, RepresentationsOf(FROM_FOUR, Hearts, 4)),
     Candidate(FROM_FIVE, RepresentationsOf(FROM_FIVE, Hearts, 5))]
  }

  lemma {:induction false} ExampleUpTo(m: multiset<Card>, aceLow: bool, k: nat)
    requires ExampleHand(m) && k <= 9
    ensures CandidatesUpTo(m, Hearts, aceLow, k, 6) == Placements()[..if k < 3 then 0 else if k < 5 then k - 2 else 3]
  {
    hide ReadingFits, CandidateAt, RepresentationsOf, ExampleHand;
    if k > 0 {
      ExampleUpTo(m, aceLow, k - 1);
      ExampleReadings(m, aceLow, k);
      if 3 <= k <= 5 {
        ExampleLayout(m, aceLow, k, if k == 3 then FROM_THREE else if k == 4 then FROM_FOUR else FROM_FIVE);
        assert Placements()[..k - 2] == Placements()[..k - 3] + [Placements()[k - 3]];
      }
    }
  }

  lemma ExampleCandidates(cards: seq<Card>)
    requires |cards| == 6 && ExampleHand(multiset(cards))
    ensures IsRun(cards) && JokerCount(cards) != 6 &&
            Candidates(multiset(cards), SuitOf(multiset(cards)), 6) == Placements() + Placements()
  {
    ExampleReadings(multiset(cards), false, 3);
    RunIffAdmitted(cards);
    SuitOfRun(cards, Hearts, 3);
    ExampleUpTo(multiset(cards), false, 9);
    ExampleUpTo(multiset(cards), true, 9);
  }

  lemma SixMatches(a: seq<Card>, b: seq<Card>)
    requires |a| == 6 && |b| == 6
    ensures Matches(a, b) ==
            (if a[0] == b[0] then 1 else 0) + (if a[1] == b[1] then 1 else 0) + (if a[2] == b[2] then 1 else 0)
            + (if a[3] == b[3] then 1 else 0) + (if a[4] == b[4] then 1 else 0) + (if a[5] == b[5] then 1 else 0)
  {
    assert MatchCount(a, b, 1) == MatchCount(a, b, 0) + (if a[0] == b[0] then 1 else 0);
    assert MatchCount(a, b, 2) == MatchCount(a, b, 1) + (if a[1] == b[1] then 1 else 0);
    assert MatchCount(a, b, 3) == MatchCount(a, b, 2) + (if a[2] == b[2] then 1 else 0);
    assert MatchCount(a, b, 4) == MatchCount(a, b, 3) + (if a[3] == b[3] then 1 else 0);
    assert MatchCount(a, b, 5) == MatchCount(a, b, 4) + (if a[4] == b[4] then 1 else 0);
  }

  lemma NothingScanned(cards: seq<Card>)
    ensures ScanList(cards, []) == Running(None)
  {
  }

  /** The scan of the three placements, met twice, none of the first two the given order. */
  lemma ExampleScan(cards: seq<Card>, a: Candidate, b: Candidate, c: Candidate)
    requires cards != a.ordered && cards != b.ordered && a != b && a != c && b != c
    ensures var x, y, z := Matches(cards, a.ordered), Matches(cards, b.ordered), Matches(cards, c.ordered);
            var s := ScanList(cards, [a, b, c, a, b, c]);
            (x == y ==> s == Tied) &&
            (cards != c.ordered && x < y < z ==> s == Running(Some(c))) &&
            (cards != c.ordered && y < x && z < x ==> s == Running(Some(a)))
  {
    hide Matches, ScanList;
    NothingScanned(cards);
    ScanSnoc(cards, [], a);
    ScanSnoc(cards, [a], b);
    ScanSnoc(cards, [a, b], c);
    ScanSnoc(cards, [a, b, c], a);
    ScanSnoc(cards, [a, b, c, a], b);
    ScanSnoc(cards, [a, b, c, a, b], c);
    assert [] + [a] == [a] && [a] + [b] == [a, b] && [a, b] + [c] == [a, b, c] && [a, b, c] + [a] == [a, b, c, a];
    assert [a, b, c, a] + [b] == [a, b, c, a, b] && [a, b, c, a, b] + [c] == [a, b, c, a, b, c];
  }

  /** The order of the example hand that is chosen for `cards`, in terms of the three match counts. */
  lemma ExampleOrder(cards: seq<Card>)
    requires |cards| == 6 && ExampleHand(multiset(cards)) && cards != FROM_THREE && cards != FROM_FOUR
    ensures IsRun(cards)
    ensures var x, y, z := Matches(cards, FROM_THREE), Matches(cards, FROM_FOUR), Matches(cards, FROM_FIVE);
            (x == y ==> BestRunOrder(cards).None?) &&
            (cards != FROM_FIVE && x < y < z ==>
               BestRunOrder(cards).Some? && BestRunOrder(cards).value.ordered == FROM_FIVE) &&
            (cards != FROM_FIVE && y < x && z < x ==>
               BestRunOrder(cards).Some? && BestRunOrder(cards).value.ordered == FROM_THREE)
  {
    hide Matches, RepresentationsOf, ScanList, Candidates, ExampleHand, IsRun, SuitOf;
    ExampleCandidates(cards);
    var p := Placements();
    assert FROM_THREE[0] != FROM_FIVE[0] && FROM_FOUR[0] != FROM_FIVE[0] && FROM_THREE[1] != FROM_FOUR[1];
    ExampleScan(cards, p[0], p[1], p[2]);
    assert p + p == [p[0], p[1], p[2], p[0], p[1], p[2]];
  }

  /** Normalisation is not idempotent: the layout chosen for this run ties when it is laid out again,
      and the layout of its reversal is another one. */
  lemma LayingOutAgainMoves()
    ensures IsRun(GIVEN) && Normalized(GIVEN) == FROM_FIVE
    ensures IsRun(FROM_FIVE) && !CardsAreOrdered(FROM_FIVE) && Normalized(FROM_FIVE) == FROM_THREE != FROM_FIVE
  {
    hide Normalized, BestRunOrder, Matches;
    GivenOrder();
    PlacedOrder();
    MirroredOrder();
    ChosenOrders();
  }

  lemma GivenOrder()
    ensures IsRun(GIVEN) && BestRunOrder(GIVEN).Some? && BestRunOrder(GIVEN).value.ordered == FROM_FIVE
  {
    hide BestRunOrder, Matches;
    SixMatches(GIVEN, FROM_THREE);
    SixMatches(GIVEN, FROM_FOUR);
    SixMatches(GIVEN, FROM_FIVE);
    assert GIVEN[3] != FROM_THREE[3] && GIVEN[3] != FROM_FOUR[3] && GIVEN[0] != FROM_FIVE[0];
    ExampleOrder(GIVEN);
  }

  lemma PlacedOrder()
    ensures IsRun(FROM_FIVE) && BestRunOrder(FROM_FIVE).None?
  {
    hide BestRunOrder, Matches;
    SixMatches(FROM_FIVE, FROM_THREE);
    SixMatches(FROM_FIVE, FROM_FOUR);
    assert FROM_FIVE[0] != FROM_THREE[0] && FROM_FIVE[0] != FROM_FOUR[0];
    ExampleOrder(FROM_FIVE);
  }

  const MIRRORED: seq<Card> := [Joker, Joker, EIGHT, Joker, Joker, FIVE]

  lemma MirroredMatches()
    ensures Matches(MIRRORED, FROM_THREE) == 4 && Matches(MIRRORED, FROM_FOUR) == 2 && Matches(MIRRORED, FROM_FIVE) == 2
  {
    hide Matches;
    SixMatches(MIRRORED, FROM_THREE);
    SixMatches(MIRRORED, FROM_FOUR);
    SixMatches(MIRRORED, FROM_FIVE);
  }

  lemma MirroredFromFive()
    ensures Reversed(FROM_FIVE) == MIRRORED && ExampleHand(multiset(MIRRORED))
  {
  }

  lemma MirroredOrder()
    ensures IsRun(Reversed(FROM_FIVE)) && BestRunOrder(Reversed(FROM_FIVE)).Some? &&
            BestRunOrder(Reversed(FROM_FIVE)).value.ordered == FROM_THREE
  {
    hide BestRunOrder, Matches, IsRun, Reversed, ExampleHand;
    MirroredFromFive();
    MirroredMatches();
    assert MIRRORED[2] != FROM_THREE[2] && MIRRORED[2] != FROM_FOUR[2] && MIRRORED[2] != FROM_FIVE[2];
    ExampleOrder(MIRRORED);
  }

  lemma ChosenOrders()
    requires IsRun(GIVEN) && BestRunOrder(GIVEN).Some? && BestRunOrder(GIVEN).value.ordered == FROM_FIVE
    requires IsRun(FROM_FIVE) && BestRunOrder(FROM_FIVE).None?
    requires IsRun(Reversed(FROM_FIVE)) && BestRunOrder(Reversed(FROM_FIVE)).Some? &&
             BestRunOrder(Reversed(FROM_FIVE)).value.ordered == FROM_THREE
    ensures Normalized(GIVEN) == FROM_FIVE && !CardsAreOrdered(FROM_FIVE) &&
            Normalized(FROM_FIVE) == FROM_THREE != FROM_FIVE
  {
    hide BestRunOrder, IsRun;
    assert FROM_THREE[0] != FROM_FIVE[0];
  }

  // ---------------------------------------------------------------- how such a layout gets onto the table

  const SHORT: seq<Card> := [Joker, Joker, Joker, EIGHT]

  lemma {:induction false} ShortUpTo(m: multiset<Card>, k: nat)
    requires m == multiset(SHORT) && k <= 11
    ensures var list := CandidatesUpTo(m, Hearts, false, k, 4);
            if k < 5 then list == [] else list != [] && list[0].ordered == SHORT
  {
    if k > 0 {
      ShortUpTo(m, k - 1);
      assert EIGHT in m;
      if k == 5 {
        assert ReadingFits(m, Hearts, false, 5, 4);
        assert Layout(m, Hearts, false, 5, 4) == SHORT;
      }
    }
  }

  lemma ShortIsOrdered()
    ensures IsRun(SHORT) && CardsAreOrdered(SHORT)
  {
    var m := multiset(SHORT);
    ShortUpTo(m, 11);
    assert EIGHT in m;
    assert Admits(m, Hearts, 5, 4);
    hide CardsAreOrdered, CandidatesUpTo;
    RunIffAdmitted(SHORT);
    SuitOfRun(SHORT, Hearts, 5);
    FirstIsRecognised(SHORT);
  }

  /** Three jokers and an eight are laid as given; adding a five and a joker behind them makes a run
      whose layout does not last. */
  lemma AdditionMakesItMove() returns (c: Comp, d: Comp)
    ensures MakeComp(SHORT, Run, true) == Some(c) && c.cards == SHORT
    ensures WithInsertedCards(c, 4, [FIVE, Joker]) == Some(d) && d.cards == FROM_FIVE
    ensures IsRun(FROM_FIVE) && Normalized(FROM_FIVE) == FROM_THREE != FROM_FIVE
  {
    hide Normalized, CardsAreOrdered, IsRun;
    ShortIsOrdered();
    OrderedIsUnchanged(SHORT);
    LayingOutAgainMoves();
    c := MakeComp(SHORT, Run, true).value;
    GivenFromShort();
    hide Inserted;
    d := WithInsertedCards(c, 4, [FIVE, Joker]).value;
  }

  lemma GivenFromShort()
    ensures Inserted(SHORT, 4, [FIVE, Joker]) == GIVEN
  {
  }
}
