/** What the jokers of table compositions stand for, said without the lists the engine keeps: a joker of a set
    stands for every card that would complete the set in its place. */
module JokerMeaning {
  import opened Cards
  import opened RunSpec
  import opened RunFitting
  import opened RunLayout
  import opened Compositions

  // ---------------------------------------------------------------- sets

  /** The card would complete the set if it lay in the joker's place. */
  ghost predicate Completes(cards: seq<Card>, i: int, c: Card)
    requires 0 <= i < |cards|
  {
    c.Natural? && IsSet(cards[i := c])
  }

  lemma InAllNaturals(c: Card)
    requires c.Natural?
    ensures c in AllNaturalCards()
  {
    assert SuitCards(c.suit)[c.rank - 1] == c;
    assert c in SuitCards(c.suit);
    match c.suit
    case Hearts =>
    case Diamonds =>
    case Clubs =>
    case Spades =>
  }

  lemma MissingIff(rank: Rank, used: set<Suit>, c: Card)
    ensures c in MissingSetCards(rank, used) <==> c.Natural? && c.rank == rank && c.suit !in used
  {
    if c.Natural? {
      match c.suit
      case Hearts =>
      case Diamonds =>
      case Clubs =>
      case Spades =>
    }
  }

  /** The options of a joker are exactly the cards that complete the set in its place. */
  lemma SetOptionsComplete(cards: seq<Card>, i: int, c: Card)
    requires IsSet(cards) && 0 <= i < |cards| && cards[i].Joker?
    ensures c in SetOptions(cards) <==> Completes(cards, i, c)
  {
    SetIffShape(cards);
    SetIffShape(cards[i := c]);
    var first := FirstNatural(cards);
    if first.None? {
      AllJokersComplete(cards, i, c);
    } else {
      MissingIff(first.value.rank, UsedSuits(cards), c);
      RankAndSuitComplete(cards, i, c, first.value);
    }
  }

  lemma AllJokersComplete(cards: seq<Card>, i: int, c: Card)
    requires SetShape(cards) && 0 <= i < |cards| && forall x :: x in cards ==> x.Joker?
    ensures c in AllNaturalCards() <==> c.Natural? && SetShape(cards[i := c])
  {
    forall k | 0 <= k < |cards|
      ensures cards[k].Joker?
    {
      assert cards[k] in cards;
    }
    if c.Natural? {
      InAllNaturals(c);
    }
  }

  lemma RankAndSuitComplete(cards: seq<Card>, i: int, c: Card, first: Card)
    requires SetShape(cards) && 0 <= i < |cards| && cards[i].Joker? && first in cards && first.Natural?
    ensures c.Natural? && c.rank == first.rank && c.suit !in UsedSuits(cards) <==> c.Natural? && SetShape(cards[i := c])
  {
    var after := cards[i := c];
    var f :| 0 <= f < |cards| && cards[f] == first;
    if c.Natural? && SetShape(after) {
      assert after[i] == c && after[f] == first;
      forall x | x in cards && x.Natural?
        ensures x.suit != c.suit
      {
        var k :| 0 <= k < |cards| && cards[k] == x;
        assert after[k] == x;
      }
    }
    if c.Natural? && c.rank == first.rank && c.suit !in UsedSuits(cards) {
      forall k | 0 <= k < |cards| && cards[k].Natural?
        ensures cards[k].rank == c.rank && cards[k].suit != c.suit
      {
        assert cards[k] in cards && after[k] == cards[k];
      }
    }
  }

  lemma NaturalsListedOnce(c: Card)
    ensures multiset(AllNaturalCards())[c] <= 1
  {
    SuitCardsCount(Hearts, c);
    SuitCardsCount(Diamonds, c);
    SuitCardsCount(Clubs, c);
    SuitCardsCount(Spades, c);
  }

  /** No card is listed twice. */
  lemma OptionsDiffer(cards: seq<Card>, j: nat, k: nat)
    requires j < k < |SetOptions(cards)|
    ensures SetOptions(cards)[j] != SetOptions(cards)[k]
  {
    hide AllNaturalCards;
    if FirstNatural(cards).None? && SetOptions(cards)[j] == SetOptions(cards)[k] {
      NaturalsListedOnce(SetOptions(cards)[j]);
      CountOfTwo(SetOptions(cards), j, k, SetOptions(cards)[j]);
      assert false;
    }
  }

  /** The joker at `i` of a table set stands for exactly the cards that complete the set there, each listed
      once. */
  lemma SetJokersMean(c: Comp, i: int)
    requires CompOk(c) && c.variant == Set && 0 <= i < |c.cards| && c.cards[i].Joker?
    ensures i in c.representations
    ensures forall x :: x in c.representations[i] <==> Completes(c.cards, i, x)
    ensures forall j, k :: 0 <= j < k < |c.representations[i]| ==> c.representations[i][j] != c.representations[i][k]
  {
    hide SetOptions, IsSet;
    forall x
      ensures x in SetOptions(c.cards) <==> Completes(c.cards, i, x)
    {
      SetOptionsComplete(c.cards, i, x);
    }
    forall j, k | 0 <= j < k < |SetOptions(c.cards)|
      ensures SetOptions(c.cards)[j] != SetOptions(c.cards)[k]
    {
      OptionsDiffer(c.cards, j, k);
    }
  }

  /** The only card that completes the set at `i`. */
  ghost predicate OnlyOne(cards: seq<Card>, i: int, r: Card)
    requires 0 <= i < |cards|
  {
    Completes(cards, i, r) && forall x :: Completes(cards, i, x) ==> x == r
  }

  /** A joker of a set can be reclaimed for a card at once exactly when no other card completes the set in its
      place; the reclaim waits for the additions exactly when another card does too. */
  lemma SetReclaimIff(c: Comp, i: int, r: Card)
    requires CompOk(c) && c.variant == Set && 0 <= i < |c.cards| && c.cards[i].Joker?
    ensures CanReclaimJoker(c, i, r) <==> OnlyOne(c.cards, i, r)
    ensures ReclaimJoker(c, i, r).Some? <==> OnlyOne(c.cards, i, r)
    ensures IsAmbiguousSetReclaim(c, i, r) <==> Completes(c.cards, i, r) && !OnlyOne(c.cards, i, r)
  {
    hide CompOk, Completes, ReclaimJoker;
    SetJokersMean(c, i);
    ReclaimSucceeds(c, i, r);
    if Completes(c.cards, i, r) {
      CompletingIsNatural(c.cards, i, r);
    }
    var options := c.representations[i];
    if Completes(c.cards, i, r) && |options| > 1 {
      assert options[0] != options[1] && options[0] in options && options[1] in options;
    }
    if Completes(c.cards, i, r) && |options| == 1 {
      assert options[0] == r;
    }
    if |options| == 1 {
      assert options[0] in options;
    }
  }

  lemma CompletingIsNatural(cards: seq<Card>, i: int, r: Card)
    requires 0 <= i < |cards| && Completes(cards, i, r)
    ensures r.Natural?
  {
  }

  // ---------------------------------------------------------------- runs

  /** The card that belongs at place `i` of a run standing in its window. */
  ghost predicate Belongs(cards: seq<Card>, suit: Suit, start: int, i: int, r: Card) {
    Arrangement(cards, suit, start) && 0 <= i < |cards| && 1 <= start + i <= 14 && r == Natural(RankAt(start + i), suit)
  }

  /** Every joker of a run that is recognised as it lies stands for the one card that belongs in its place, and
      can be reclaimed for that card and no other. */
  lemma RunJokersMean(cards: seq<Card>) returns (suit: Suit, start: int)
    requires IsRun(cards) && CardsAreOrdered(cards)
    ensures var c := Comp(Run, cards, AssignedJokers(Run, cards));
            forall i, r :: 0 <= i < |cards| && cards[i].Joker? ==>
              (CanReclaimJoker(c, i, r) <==> Belongs(cards, suit, start, i, r))
  {
    BestRunOrderLaysOut(cards);
    var r := BestRunOrder(cards).value;
    suit, start :| LaysOut(cards, r.ordered, r.representations, suit, start);
  }

  // ---------------------------------------------------------------- a joker for a natural

  lemma JokerInSet(a: seq<Card>, b: seq<Card>, c: Card)
    requires IsSet(a) && c in multiset(a) && multiset(b) == multiset(a) - multiset{c} + multiset{Joker}
    ensures IsSet(b)
  {
    SetIffShape(a);
    var i :| 0 <= i < |a| && a[i] == c;
    UpdateMultiset(a, i, Joker);
    SameShape(a[i := Joker], b);
    SameMultisetSameLength(a[i := Joker], b);
    SetIffShape(b);
  }

  lemma JokerInRun(a: seq<Card>, b: seq<Card>, c: Card)
    requires IsRun(a) && c in multiset(a) && multiset(b) == multiset(a) - multiset{c} + multiset{Joker}
    ensures IsRun(b)
  {
    var w, suit, start :| ArrangesAt(a, w, suit, start);
    var j :| 0 <= j < |w| && w[j] == c;
    UpdateMultiset(w, j, Joker);
    SameMultisetSameLength(w[j := Joker], b);
    SameMultisetSameLength(w, a);
    assert ArrangesAt(b, w[j := Joker], suit, start);
  }

  /** A joker can take the place of any natural card of a composition. */
  lemma JokerInstead(variant: Variant, a: seq<Card>, b: seq<Card>, c: Card)
    requires ValidCards(variant, a) && c in multiset(a) && multiset(b) == multiset(a) - multiset{c} + multiset{Joker}
    ensures ValidCards(variant, b)
  {
    if variant == Set {
      JokerInSet(a, b, c);
    } else {
      JokerInRun(a, b, c);
    }
  }

  // ---------------------------------------------------------------- what sets are worth

  /** Card by card, with aces high. */
  function Worth(cards: seq<Card>): nat {
    if cards == [] then 0
    else
      Worth(cards[..|cards| - 1]) + RankPoints(RankField(cards[|cards| - 1]), false)
  }

  lemma {:induction false} WorthOfRank(cards: seq<Card>, rank: Rank)
    requires forall i :: 0 <= i < |cards| ==> cards[i].Natural? && cards[i].rank == rank
    ensures Worth(cards) == |cards| * RankPoints(rank, false)
  {
    if cards != [] {
      WorthOfRank(cards[..|cards| - 1], rank);
    }
  }

  lemma {:induction false} WorthAtMostTen(cards: seq<Card>)
    ensures Worth(cards) <= 10 * |cards|
  {
    if cards != [] {
      WorthAtMostTen(cards[..|cards| - 1]);
    }
  }

  /** `full` completes the set. */
  ghost predicate FullSet(cards: seq<Card>, full: seq<Card>) {
    Substitutes(cards, full) && NaturalSet(full)
  }

  /** A set is worth what its cards are worth once its jokers are replaced; with no natural in it, the most that
      any replacement gives. */
  lemma SetPointsAreWorth(cards: seq<Card>, full: seq<Card>)
    requires IsSet(cards) && FullSet(cards, full)
    ensures Worth(full) <= Points(Set, cards)
    ensures (exists c :: c in cards && c.Natural?) ==> Worth(full) == Points(Set, cards)
  {
    WorthAtMostTen(full);
    WorthOfRank(full, full[0].rank);
    var first := FirstNatural(cards);
    if first.Some? {
      var k :| 0 <= k < |cards| && cards[k] == first.value;
      assert full[k] == cards[k];
    }
  }

  /** Aces replace the jokers of a set of jokers best. */
  lemma JokersAreWorthAces(cards: seq<Card>)
    requires 3 <= |cards| <= 4 && forall c :: c in cards ==> c.Joker?
    ensures var full := seq(|cards|, i requires 0 <= i < |cards| => Natural(ACE, SUITS[i]));
            FullSet(cards, full) && IsSet(cards) && Worth(full) == Points(Set, cards)
  {
    var full := seq(|cards|, i requires 0 <= i < |cards| => Natural(ACE, SUITS[i]));
    forall i | 0 <= i < |cards|
      ensures cards[i].Joker?
    {
      assert cards[i] in cards;
    }
    assert SUITS[0] != SUITS[1] && SUITS[1] != SUITS[2] && SUITS[2] != SUITS[3];
    assert Substitutes(cards, full) && NaturalSet(full);
    WorthOfRank(full, ACE);
  }
}
