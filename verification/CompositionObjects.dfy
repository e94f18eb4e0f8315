/** The mutable composition of composition.go: validated, normalised and given its joker
    representations in place, and then read as a value of Compositions. */
module CompositionObjects {
  import opened Cards
  import opened RunSpec
  import opened RunFitting
  import opened RunFilling
  import opened RunLayout
  import opened RunOrdering
  import opened RunScoring
  import opened Compositions

  method ReverseCards(cards: seq<Card>) returns (r: seq<Card>)
    ensures r == Reversed(cards)
  {
    r := [];
    for i := 0 to |cards|
      invariant |r| == i && forall j :: 0 <= j < i ==> r[j] == cards[|cards| - 1 - j]
    {
      r := r + [cards[|cards| - 1 - i]];
    }
  }

  method RunCardsAreOrdered(cards: seq<Card>) returns (ordered: bool)
    requires IsRun(cards)
    ensures ordered <==> CardsAreOrdered(cards)
  {
    RunIsSuited(cards);
    var r := BestRunOrderOf(cards);
    return r.Some? && r.value.matchesInput;
  }

  method RunCardsAreReverseOrdered(cards: seq<Card>) returns (ordered: bool)
    requires IsRun(cards)
    ensures ordered <==> ReverseOrdered(cards)
  {
    ReversedRun(cards);
    var reversed := ReverseCards(cards);
    ordered := RunCardsAreOrdered(reversed);
  }

  /** The source's map from joker positions to card lists, which several compositions could share. */
  class Representations {
    var options: map<int, seq<Card>>

    constructor (options: map<int, seq<Card>>)
      ensures this.options == options
    {
      this.options := options;
    }
  }

  class Composition {
    var variant: Variant
    var cards: seq<Card>
    var jokerRepresentations: Representations

    function Value(): Comp
      reads this, jokerRepresentations
    {
      Comp(variant, cards, jokerRepresentations.options)
    }

    constructor (variant: Variant, cards: seq<Card>)
      ensures Value() == Comp(variant, cards, map[]) && fresh(jokerRepresentations)
    {
      this.variant, this.cards := variant, cards;
      jokerRepresentations := new Representations(map[]);
    }

    /** A composition as it was built before. */
    constructor Of(c: Comp)
      ensures Value() == c && fresh(jokerRepresentations)
    {
      variant, cards := c.variant, c.cards;
      jokerRepresentations := new Representations(c.representations);
    }

    /** The copy has a map of its own. */
    method Clone() returns (copy: Composition)
      ensures fresh(copy) && fresh(copy.jokerRepresentations) && copy.Value() == Value()
    {
      copy := new Composition(variant, cards);
      var own := new Representations(jokerRepresentations.options);
      copy.jokerRepresentations := own;
    }

    method IsValid() returns (valid: bool)
      ensures valid <==> ValidCards(variant, cards)
    {
      match variant
      case Set => valid := IsValidSet(cards);
      case Run => valid := IsValidRun(cards);
    }

    /** Lay the run out; if that ties, try again from the other end. */
    method NormalizeRunCards() returns (changed: bool)
      requires IsRun(cards)
      modifies this`cards
      ensures cards == Normalized(old(cards))
      ensures !changed ==> cards == old(cards)
    {
      RunIsSuited(cards);
      var order := BestRunOrderOf(cards);
      if order.Some? {
        cards := order.value.ordered;
        return true;
      }
      ReversedRun(cards);
      var reversed := ReverseCards(cards);
      RunIsSuited(reversed);
      order := BestRunOrderOf(reversed);
      if order.None? {
        return false;
      }
      cards := order.value.ordered;
      return true;
    }

    method AssignSetJokers()
      requires variant == Set && ValidCards(Set, cards)
      modifies this`jokerRepresentations
      ensures fresh(jokerRepresentations) && jokerRepresentations.options == AssignedJokers(Set, cards)
    {
      var options := SetOptions(cards);
      jokerRepresentations := new Representations(map[]);
      for i := 0 to |cards|
        invariant cards == old(cards) && fresh(jokerRepresentations)
        invariant jokerRepresentations.options == map j | 0 <= j < i && cards[j].Joker? :: options
      {
        if cards[i].Joker? {
          jokerRepresentations.options := jokerRepresentations.options[i := options];
        }
      }
    }

    method AssignRunJokers()
      requires variant == Run && ValidCards(Run, cards)
      modifies this`jokerRepresentations
      ensures fresh(jokerRepresentations) && jokerRepresentations.options == AssignedJokers(Run, cards)
    {
      RunIsSuited(cards);
      jokerRepresentations := new Representations(map[]);
      var order := BestRunOrderOf(cards);
      if order.None? {
        return;
      }
      var found := order.value.representations;
      jokerRepresentations.options := map i | i in found :: [found[i]];
    }

    method AssignJokers()
      requires ValidCards(variant, cards)
      modifies this`jokerRepresentations
      ensures fresh(jokerRepresentations) && jokerRepresentations.options == AssignedJokers(variant, cards)
    {
      match variant
      case Set => AssignSetJokers();
      case Run => AssignRunJokers();
    }

    method SetPoints() returns (total: nat)
      requires variant == Set && CompOk(Value())
      ensures total == Points(Set, cards)
    {
      var setRank := SetRank(cards);
      SetIffShape(cards);
      SetRankOf(cards);
      total := 0;
      for i := 0 to |cards|
        invariant total == i * RankPoints(setRank, false)
      {
        if cards[i].Natural? {
          assert cards[i] in cards;
          total := total + RankPoints(cards[i].rank, false);
          continue;
        }
        if i in jokerRepresentations.options && |jokerRepresentations.options[i]| == 1 {
          SingleOptionRank(cards, i);
          total := total + RankPoints(RankField(jokerRepresentations.options[i][0]), false);
          continue;
        }
        total := total + RankPoints(setRank, false);
      }
    }

    method PointTotal() returns (total: nat)
      requires CompOk(Value())
      ensures total == Points(variant, cards)
    {
      match variant
      case Set => total := SetPoints();
      case Run => total := RunPoints(cards);
    }

    method IsComplete() returns (complete: bool)
      ensures complete <==> Complete(variant, cards)
    {
      match variant
      case Set => complete := IsCompleteSet(cards);
      case Run => complete := IsCompleteRun(cards);
    }
  }

  lemma SingleOptionRank(cards: seq<Card>, i: nat)
    requires IsSet(cards) && i < |cards| && |SetOptions(cards)| == 1
    ensures RankField(SetOptions(cards)[0]) == SetRank(cards)
  {
    assert |AllNaturalCards()| == 52;
    var first := FirstNatural(cards);
    if first.Some? {
      MissingIsUnused(first.value.rank, UsedSuits(cards), 0);
    }
  }

  // ---------------------------------------------------------------- completeness

  /** Complete compositions leave the table: four naturals of a rank, or a whole suit with both aces. */
  ghost predicate Complete(variant: Variant, cards: seq<Card>) {
    ValidCards(variant, cards) && AllNatural(cards) && |cards| == if variant == Set then 4 else 14
  }

  method IsCompleteSet(cards: seq<Card>) returns (complete: bool)
    ensures complete <==> Complete(Set, cards)
  {
    SetIffShape(cards);
    if |cards| != 4 {
      return false;
    }
    for i := 0 to |cards|
      invariant forall j :: 0 <= j < i ==> cards[j].Natural?
    {
      if cards[i].Joker? {
        return false;
      }
    }
    var setRank := cards[0].rank;
    var seenSuits: set<Suit> := {};
    for i := 0 to |cards|
      invariant forall j :: 0 <= j < i ==> cards[j].rank == setRank && cards[j].suit in seenSuits
      invariant forall suit :: suit in seenSuits ==> exists j :: 0 <= j < i && cards[j].suit == suit
      invariant forall j, k :: 0 <= j < k < i ==> cards[j].suit != cards[k].suit
    {
      if cards[i].rank != setRank || cards[i].suit in seenSuits {
        return false;
      }
      seenSuits := seenSuits + {cards[i].suit};
    }
    return true;
  }

  lemma WholeSuitIff(cards: seq<Card>, suit: Suit)
    requires SameSuit(cards, suit) && |cards| == 14
    ensures IsRun(cards) <==> forall q :: 1 <= q <= 13 ==>
              multiset(cards)[Natural(q, suit)] == if q == ACE then 2 else 1
  {
    RunIffAdmitted(cards);
    assert cards[0] in multiset(cards);
    if suit', start :| Admits(multiset(cards), suit', start, 14) {
      AdmitsExactly(cards, suit, start);
    }
    if forall q :: 1 <= q <= 13 ==> multiset(cards)[Natural(q, suit)] == if q == ACE then 2 else 1 {
      ExactAdmits(cards, suit, 1);
    }
  }

  method CountSuit(cards: seq<Card>) returns (counts: seq<nat>, sameSuit: bool)
    requires AllNatural(cards) && |cards| > 0
    ensures sameSuit <==> SameSuit(cards, cards[0].suit)
    ensures sameSuit ==> |counts| == 14 && forall q :: 1 <= q <= 13 ==>
              counts[q] == multiset(cards)[Natural(q, cards[0].suit)]
  {
    counts := seq(14, _ => 0);
    for i := 0 to |cards|
      invariant |counts| == 14 && SameSuit(cards[..i], cards[0].suit)
      invariant forall q :: 1 <= q <= 13 ==> counts[q] == multiset(cards[..i])[Natural(q, cards[0].suit)]
    {
      if cards[i].suit != cards[0].suit {
        return counts, false;
      }
      assert cards[..i + 1] == cards[..i] + [cards[i]];
      counts := counts[cards[i].rank := counts[cards[i].rank] + 1];
    }
    assert cards[..|cards|] == cards;
    sameSuit := true;
  }

  method IsCompleteRun(cards: seq<Card>) returns (complete: bool)
    ensures complete <==> Complete(Run, cards)
  {
    if |cards| != 14 {
      return false;
    }
    for i := 0 to |cards|
      invariant forall j :: 0 <= j < i ==> cards[j].Natural?
    {
      if cards[i].Joker? {
        return false;
      }
    }
    var counts, sameSuit := CountSuit(cards);
    if !sameSuit {
      NotOneSuit(cards);
      return false;
    }
    WholeSuitIff(cards, cards[0].suit);
    if counts[ACE] != 2 {
      return false;
    }
    for rank := TWO to KING + 1
      invariant forall q :: 2 <= q < rank ==> counts[q] == 1
    {
      if counts[rank] != 1 {
        return false;
      }
    }
    return true;
  }

  lemma NotOneSuit(cards: seq<Card>)
    requires AllNatural(cards) && |cards| > 0 && !SameSuit(cards, cards[0].suit)
    ensures !IsRun(cards)
  {
    RunIffAdmitted(cards);
    if suit, start :| Admits(multiset(cards), suit, start, |cards|) {
      forall i | 0 <= i < |cards|
        ensures cards[i].suit == suit
      {
        assert cards[i] in multiset(cards);
      }
    }
  }

  // ---------------------------------------------------------------- the constructor and table operations

  method NewComposition(cards: seq<Card>, variant: Variant, requireOrderedRun: bool) returns (r: Option<Comp>)
    ensures r == MakeComp(cards, variant, requireOrderedRun)
  {
    var c := new Composition(variant, cards);
    var valid := c.IsValid();
    if !valid {
      return None;
    }
    if variant == Run {
      if requireOrderedRun {
        var ordered := RunCardsAreOrdered(cards);
        var reverseOrdered := RunCardsAreReverseOrdered(cards);
        if !ordered && !reverseOrdered {
          return None;
        }
      }
      var _ := c.NormalizeRunCards();
      NormalizedKeepsCards(cards);
    }
    c.AssignJokers();
    return Some(c.Value());
  }

  method InsertCards(c: Comp, insertIndex: int, cards: seq<Card>) returns (r: Option<Comp>)
    ensures r == WithInsertedCards(c, insertIndex, cards)
  {
    if insertIndex < 0 || insertIndex > |c.cards| {
      return None;
    }
    var combined := c.cards[..insertIndex] + cards + c.cards[insertIndex..];
    r := NewComposition(combined, c.variant, false);
  }

  method Reclaim(c: Comp, cardIndex: int, replacement: Card) returns (r: Option<Comp>)
    ensures r == ReclaimJoker(c, cardIndex, replacement)
  {
    if cardIndex < 0 || cardIndex >= |c.cards| {
      return None;
    }
    if c.cards[cardIndex].Natural? || replacement.Joker? {
      return None;
    }
    if cardIndex !in c.representations || |c.representations[cardIndex]| != 1 {
      return None;
    }
    if !CardsEqual(c.representations[cardIndex][0], replacement) {
      return None;
    }
    var updatedCards := c.cards[cardIndex := replacement];
    r := NewComposition(updatedCards, c.variant, false);
  }

  method PointsOf(c: Comp) returns (total: nat)
    requires CompOk(c)
    ensures total == Points(c.variant, c.cards)
  {
    var composition := new Composition.Of(c);
    total := composition.PointTotal();
  }
}
