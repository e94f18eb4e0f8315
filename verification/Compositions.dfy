/** Table compositions (composition.go): how they are built, what their jokers stand for,
    and which jokers can be taken back. */
module Compositions {
  import opened Cards
  import opened RunSpec
  import opened RunFitting
  import opened RunLayout
  import opened RunScoring

  datatype Variant = Set | Run

  /** A composition once it lies on the table; `representations` lists what each joker may stand for. */
  datatype Comp = Comp(variant: Variant, cards: seq<Card>, representations: map<int, seq<Card>>)

  // ---------------------------------------------------------------- building a composition

  ghost predicate ValidCards(variant: Variant, cards: seq<Card>) {
    match variant
    case Set => IsSet(cards)
    case Run => IsRun(cards)
  }

  function Reversed(s: seq<Card>): (r: seq<Card>)
    ensures |r| == |s| && forall i :: 0 <= i < |s| ==> r[i] == s[|s| - 1 - i]
  {
    seq(|s|, i requires 0 <= i < |s| => s[|s| - 1 - i])
  }

  lemma {:induction false} ReversedKeepsCards(s: seq<Card>)
    ensures multiset(Reversed(s)) == multiset(s)
  {
    if s != [] {
      var k := |s| - 1;
      ReversedKeepsCards(s[..k]);
      assert Reversed(s) == [s[k]] + Reversed(s[..k]);
      assert s == s[..k] + [s[k]];
    }
  }

  lemma ReversedRun(cards: seq<Card>)
    requires IsRun(cards)
    ensures IsRun(Reversed(cards))
  {
    ReversedKeepsCards(cards);
    SameRun(cards, Reversed(cards));
  }

  ghost predicate ReverseOrdered(cards: seq<Card>)
    requires IsRun(cards)
  {
    ReversedRun(cards);
    CardsAreOrdered(Reversed(cards))
  }

  /** The closest layout, that of the reversed cards if the first attempt ties, else the cards as given. */
  ghost function Normalized(cards: seq<Card>): seq<Card>
    requires IsRun(cards)
  {
    ReversedRun(cards);
    var r, q := BestRunOrder(cards), BestRunOrder(Reversed(cards));
    if r.Some? then r.value.ordered else if q.Some? then q.value.ordered else cards
  }

  lemma NormalizedKeepsCards(cards: seq<Card>)
    requires IsRun(cards)
    ensures multiset(Normalized(cards)) == multiset(cards) && IsRun(Normalized(cards))
  {
    ReversedRun(cards);
    ReversedKeepsCards(cards);
    if BestRunOrder(cards).Some? {
      BestRunOrderLaysOut(cards);
    } else if BestRunOrder(Reversed(cards)).Some? {
      BestRunOrderLaysOut(Reversed(cards));
    }
    SameRun(cards, Normalized(cards));
  }

  /** A natural card of the list, if there is one. */
  function FirstNatural(cards: seq<Card>): (r: Option<Card>)
    ensures r.Some? ==> r.value.Natural? && r.value in cards
    ensures r.None? ==> forall c :: c in cards ==> c.Joker?
  {
    if cards == [] then None
    else
      var k := |cards| - 1;
      var r := FirstNatural(cards[..k]);
      if r.Some? then r else if cards[k].Natural? then Some(cards[k]) else None
  }

  /** The naturals of `rank` whose suits are not in use, in suit order. */
  function MissingSetCards(rank: Rank, used: set<Suit>): seq<Card> {
    (if Hearts in used then [] else [Natural(rank, Hearts)]) +
    (if Diamonds in used then [] else [Natural(rank, Diamonds)]) +
    (if Clubs in used then [] else [Natural(rank, Clubs)]) +
    (if Spades in used then [] else [Natural(rank, Spades)])
  }

  function AllNaturalCards(): seq<Card> {
    SuitCards(Hearts) + SuitCards(Diamonds) + SuitCards(Clubs) + SuitCards(Spades)
  }

  function UsedSuits(cards: seq<Card>): set<Suit> {
    set c | c in cards && c.Natural? :: c.suit
  }

  /** Every joker of a set may stand for every missing suit. */
  function SetOptions(cards: seq<Card>): seq<Card> {
    var first := FirstNatural(cards);
    if first.None? then AllNaturalCards() else MissingSetCards(first.value.rank, UsedSuits(cards))
  }

  ghost function AssignedJokers(variant: Variant, cards: seq<Card>): map<int, seq<Card>>
    requires ValidCards(variant, cards)
  {
    match variant
    case Set => map i | 0 <= i < |cards| && cards[i].Joker? :: SetOptions(cards)
    case Run =>
      var r := BestRunOrder(cards);
      if r.None? then map[] else map i | i in r.value.representations :: [r.value.representations[i]]
  }

  ghost function MakeComp(cards: seq<Card>, variant: Variant, requireOrderedRun: bool): Option<Comp> {
    if !ValidCards(variant, cards) then None
    else if variant == Set then Some(Comp(Set, cards, AssignedJokers(Set, cards)))
    else if requireOrderedRun && !CardsAreOrdered(cards) && !ReverseOrdered(cards) then None
    else
      NormalizedKeepsCards(cards);
      Some(Comp(Run, Normalized(cards), AssignedJokers(Run, Normalized(cards))))
  }

  // ---------------------------------------------------------------- operations on the table

  function Inserted(cards: seq<Card>, index: nat, more: seq<Card>): seq<Card>
    requires index <= |cards|
  {
    cards[..index] + more + cards[index..]
  }

  ghost function WithInsertedCards(c: Comp, index: int, cards: seq<Card>): Option<Comp> {
    if 0 <= index <= |c.cards| then MakeComp(Inserted(c.cards, index, cards), c.variant, false) else None
  }

  predicate CanReclaimJoker(c: Comp, index: int, replacement: Card) {
    && 0 <= index < |c.cards| && c.cards[index].Joker? && replacement.Natural?
    && index in c.representations && |c.representations[index]| == 1
    && CardsEqual(c.representations[index][0], replacement)
  }

  ghost function ReclaimJoker(c: Comp, index: int, replacement: Card): Option<Comp> {
    if CanReclaimJoker(c, index, replacement) then MakeComp(c.cards[index := replacement], c.variant, false) else None
  }

  /** A joker of a set that may stand for several cards, one of them the replacement. */
  predicate IsAmbiguousSetReclaim(c: Comp, index: int, replacement: Card) {
    && c.variant == Set && 0 <= index < |c.cards| && c.cards[index].Joker? && replacement.Natural?
    && index in c.representations && |c.representations[index]| > 1
    && exists k :: 0 <= k < |c.representations[index]| && CardsEqual(c.representations[index][k], replacement)
  }

  // ---------------------------------------------------------------- points

  function SetRank(cards: seq<Card>): Rank {
    var first := FirstNatural(cards);
    if first.Some? then first.value.rank else ACE
  }

  ghost function Points(variant: Variant, cards: seq<Card>): nat
    requires ValidCards(variant, cards)
  {
    match variant
    case Set => |cards| * RankPoints(SetRank(cards), false)
    case Run => RunTotal(cards)
  }

  /** Points depend on the cards, not on their order. */
  lemma PointsIgnoreOrder(variant: Variant, cards: seq<Card>, other: seq<Card>)
    requires ValidCards(variant, cards) && multiset(cards) == multiset(other)
    ensures ValidCards(variant, other) && Points(variant, other) == Points(variant, cards)
  {
    SameMultisetSameLength(cards, other);
    if variant == Run {
      SameRun(cards, other);
    } else {
      SetIffShape(cards);
      SetIffShape(other);
      SetRankOf(cards);
      SameShape(cards, other);
      SetRankOf(other);
    }
  }

  ghost predicate OneRank(cards: seq<Card>, rank: Rank) {
    forall c :: c in cards && c.Natural? ==> c.rank == rank
  }

  lemma SetRankOf(cards: seq<Card>)
    requires SetShape(cards)
    ensures OneRank(cards, SetRank(cards))
  {
    var first := FirstNatural(cards);
    if first.Some? {
      var k :| 0 <= k < |cards| && cards[k] == first.value;
      forall c | c in cards && c.Natural?
        ensures c.rank == first.value.rank
      {
        var i :| 0 <= i < |cards| && cards[i] == c;
        if i < k {
        } else if k < i {
        }
      }
    }
  }

  lemma SameShape(cards: seq<Card>, other: seq<Card>)
    requires SetShape(cards) && multiset(cards) == multiset(other)
    ensures SetShape(other) && SetRank(other) == SetRank(cards)
  {
    SetRankOf(cards);
    forall i, j | 0 <= i < j < |other| && other[i].Natural? && other[j].Natural?
      ensures other[i].rank == other[j].rank && other[i].suit != other[j].suit
    {
      assert other[i] in multiset(cards) && other[j] in multiset(cards);
      if other[i].suit == other[j].suit {
        CountOfTwo(other, i, j, other[i]);
        var x, y := TwoOccurrences(cards, other[i]);
        assert false;
      }
    }
    forall c: Card
      ensures c in cards <==> c in other
    {
      assert c in multiset(cards) <==> c in multiset(other);
    }
  }

  // ---------------------------------------------------------------- what jokers stand for

  ghost predicate StandsAt(cards: seq<Card>, a: seq<Card>, suit: Suit, start: int, j: int, r: Card) {
    ArrangesAt(cards, a, suit, start) && 0 <= j < |a| && a[j].Joker? && r == Natural(RankAt(start + j), suit)
  }

  /** Some arrangement of the cards has a joker standing where `r` belongs. */
  ghost predicate JokerStandsFor(cards: seq<Card>, r: Card) {
    exists a, suit, start, j :: StandsAt(cards, a, suit, start, j, r)
  }

  /** A table composition is valid and its jokers stand for cards that would complete it. */
  ghost predicate CompOk(c: Comp) {
    && ValidCards(c.variant, c.cards)
    && (c.variant == Set ==> c.representations == AssignedJokers(Set, c.cards))
    && (c.variant == Run ==> forall i :: i in c.representations ==>
          |c.representations[i]| == 1 && JokerStandsFor(c.cards, c.representations[i][0]))
  }

  lemma AssignedRunJokersStand(cards: seq<Card>)
    requires IsRun(cards)
    ensures CompOk(Comp(Run, cards, AssignedJokers(Run, cards)))
  {
    var c := Comp(Run, cards, AssignedJokers(Run, cards));
    if BestRunOrder(cards).Some? {
      BestRunOrderLaysOut(cards);
      var r := BestRunOrder(cards).value;
      var suit, start :| LaysOut(cards, r.ordered, r.representations, suit, start);
      SameMultisetSameLength(r.ordered, cards);
      forall i | i in c.representations
        ensures |c.representations[i]| == 1 && JokerStandsFor(cards, c.representations[i][0])
      {
        assert StandsAt(cards, r.ordered, suit, start, i, c.representations[i][0]);
      }
    }
  }

  /** Every composition the constructor returns is in order and holds exactly the cards given. */
  lemma MakeCompOk(cards: seq<Card>, variant: Variant, requireOrderedRun: bool)
    ensures var c := MakeComp(cards, variant, requireOrderedRun);
            c.Some? ==> CompOk(c.value) && c.value.variant == variant && multiset(c.value.cards) == multiset(cards)
  {
    if variant == Run && IsRun(cards) {
      NormalizedKeepsCards(cards);
      AssignedRunJokersStand(Normalized(cards));
    }
  }

  /** Reordering the cards of a run changes nothing its jokers stand for. */
  lemma ReorderedOk(c: Comp, cards: seq<Card>)
    requires CompOk(c) && c.variant == Run && multiset(cards) == multiset(c.cards)
    ensures CompOk(c.(cards := cards))
  {
    SameRun(c.cards, cards);
    forall i | i in c.representations
      ensures JokerStandsFor(cards, c.representations[i][0])
    {
      var a, suit, start, j :| StandsAt(c.cards, a, suit, start, j, c.representations[i][0]);
      assert StandsAt(cards, a, suit, start, j, c.representations[i][0]);
    }
  }

  // ---------------------------------------------------------------- reclaiming

  lemma RunWithJokerReplaced(cards: seq<Card>, index: nat, r: Card)
    requires IsRun(cards) && JokerStandsFor(cards, r) && index < |cards| && cards[index].Joker?
    ensures IsRun(cards[index := r])
  {
    var a, suit, start, j :| StandsAt(cards, a, suit, start, j, r);
    UpdateMultiset(cards, index, r);
    UpdateMultiset(a, j, r);
    assert ArrangesAt(cards[index := r], a[j := r], suit, start);
  }

  lemma MissingIsUnused(rank: Rank, used: set<Suit>, k: nat)
    requires k < |MissingSetCards(rank, used)|
    ensures var c := MissingSetCards(rank, used)[k]; c.Natural? && c.rank == rank && c.suit !in used
  {
  }

  lemma SetWithJokerReplaced(cards: seq<Card>, index: nat, r: Card)
    requires IsSet(cards) && index < |cards| && cards[index].Joker? && |SetOptions(cards)| == 1 &&
             SetOptions(cards)[0] == r
    ensures IsSet(cards[index := r])
  {
    SetIffShape(cards);
    SetIffShape(cards[index := r]);
    var first := FirstNatural(cards);
    assert |AllNaturalCards()| == 52;
    MissingIsUnused(first.value.rank, UsedSuits(cards), 0);
    SetRankOf(cards);
    forall i | 0 <= i < |cards| && cards[i].Natural?
      ensures cards[i].rank == r.rank && cards[i].suit != r.suit
    {
      assert cards[i] in cards;
    }
  }

  /** A joker that may be reclaimed always can be: one joker leaves, exactly its replacement enters. */
  lemma ReclaimSucceeds(c: Comp, index: int, replacement: Card)
    requires CompOk(c)
    ensures CanReclaimJoker(c, index, replacement) <==> ReclaimJoker(c, index, replacement).Some?
    ensures CanReclaimJoker(c, index, replacement) ==>
              var d := ReclaimJoker(c, index, replacement).value;
              CompOk(d) && d.variant == c.variant &&
              multiset(d.cards) == multiset(c.cards) - multiset{Joker} + multiset{replacement}
  {
    if CanReclaimJoker(c, index, replacement) {
      if c.variant == Run {
        RunWithJokerReplaced(c.cards, index, replacement);
      } else {
        SetWithJokerReplaced(c.cards, index, replacement);
      }
      UpdateMultiset(c.cards, index, replacement);
      MakeCompOk(c.cards[index := replacement], c.variant, false);
    }
  }

  lemma InsertedCards(cards: seq<Card>, index: nat, more: seq<Card>)
    requires index <= |cards|
    ensures multiset(Inserted(cards, index, more)) == multiset(cards) + multiset(more)
  {
    assert cards == cards[..index] + cards[index..];
  }

  /** Insertion keeps the composition in order and adds exactly the inserted cards. */
  lemma InsertionAdds(c: Comp, index: int, cards: seq<Card>)
    requires CompOk(c)
    ensures var d := WithInsertedCards(c, index, cards);
            d.Some? ==> CompOk(d.value) && d.value.variant == c.variant &&
                        multiset(d.value.cards) == multiset(c.cards) + multiset(cards)
  {
    if 0 <= index <= |c.cards| {
      InsertedCards(c.cards, index, cards);
      MakeCompOk(Inserted(c.cards, index, cards), c.variant, false);
    }
  }
}
