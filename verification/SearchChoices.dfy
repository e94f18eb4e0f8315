/** What the discard search tries with a selection of cards. A selection that could be used in several ways is sure
    to be tried in the first of them only: after that the buffer it was read from may hold other cards. */
module SearchChoices {
  import opened Cards
  import opened Compositions
  import opened TablePlay
  import opened Masks
  import opened SearchPlays

  /** Lay the cards as a new composition, or add them to one of the table. */
  datatype Use = Lay(variant: Variant) | Add(compositionIndex: nat)

  datatype Selection = Selection(mask: nat, use: Use)

  /** The cards can be added to composition `ci` as it lies before the play. */
  ghost predicate Fits(table: seq<Comp>, cards: seq<Card>, ci: nat) {
    ci < |table| && ValidCards(table[ci].variant, Inserted(table[ci].cards, 0, cards))
  }

  ghost predicate NoComposition(cards: seq<Card>) {
    !ValidCards(Set, cards) && !ValidCards(Run, cards)
  }

  /** Neither a composition nor an addition to one of the first `ci`. */
  ghost predicate UselessBefore(table: seq<Comp>, cards: seq<Card>, ci: nat) {
    NoComposition(cards) && forall j: nat :: j < ci ==> !Fits(table, cards, j)
  }

  /** In the order sets, runs, compositions of the table, this is the first use the cards have. */
  ghost predicate FirstUse(table: seq<Comp>, cards: seq<Card>, use: Use) {
    match use
    case Lay(Set) => ValidCards(Set, cards)
    case Lay(Run) => ValidCards(Run, cards) && !ValidCards(Set, cards)
    case Add(ci) => Fits(table, cards, ci) && UselessBefore(table, cards, ci)
  }

  function With(p: SearchPlay, c: Selection): SearchPlay {
    match c.use
    case Lay(variant) => WithComposition(p, c.mask, variant)
    case Add(ci) => WithAddition(p, ci, 0, c.mask)
  }

  function Extend(p: SearchPlay, choices: seq<Selection>): SearchPlay
    decreases |choices|
  {
    if choices == [] then p else Extend(With(p, choices[0]), choices[1..])
  }

  /** Disjoint selections in increasing order, each put to its first use. */
  ghost predicate Ascending(s: SearchState, used: nat, start: nat, bound: nat, choices: seq<Selection>)
    decreases |choices|
  {
    choices == [] ||
    (var c := choices[0];
     && 0 < c.mask && start <= c.mask < bound && And(used, c.mask) == 0
     && FirstUse(s.table, MaskCards(s.hand, c.mask), c.use)
     && Ascending(s, Or(used, c.mask), c.mask + 1, bound, choices[1..]))
  }

  /** No such choices make a valid play of `p`. */
  ghost predicate Exhausted(s: SearchState, p: SearchPlay, start: nat, bound: nat) {
    forall choices: seq<Selection> :: choices != [] && Ascending(s, p.used, start, bound, choices) ==>
      !ValidPlay(s, Extend(p, choices))
  }

  /** The choice makes no valid play, alone or with more cards from `start` on. */
  ghost predicate Done(s: SearchState, p: SearchPlay, c: Selection, start: nat, bound: nat) {
    !ValidPlay(s, With(p, c)) && Exhausted(s, With(p, c), start, bound)
  }

  /** Whatever is done first with the cards of the mask. */
  ghost predicate MaskDone(s: SearchState, p: SearchPlay, mask: nat, start: nat, bound: nat) {
    forall use :: FirstUse(s.table, MaskCards(s.hand, mask), use) ==> Done(s, p, Selection(mask, use), start, bound)
  }

  ghost predicate LayDone(s: SearchState, p: SearchPlay, mask: nat, start: nat, bound: nat) {
    forall variant ::
      FirstUse(s.table, MaskCards(s.hand, mask), Lay(variant)) ==> Done(s, p, Selection(mask, Lay(variant)), start,
               bound)
  }

  /** The same for additions to the first `count` compositions. */
  ghost predicate AddDone(s: SearchState, p: SearchPlay, mask: nat, count: nat, start: nat, bound: nat) {
    forall ci: nat :: ci < count && FirstUse(s.table, MaskCards(s.hand, mask), Add(ci)) ==>
      Done(s, p, Selection(mask, Add(ci)), start, bound)
  }

  lemma BothDone(s: SearchState, p: SearchPlay, mask: nat, start: nat, bound: nat)
    requires LayDone(s, p, mask, start, bound) && AddDone(s, p, mask, |s.table|, start, bound)
    ensures MaskDone(s, p, mask, start, bound)
  {
    hide Done, ValidCards;
    forall use | FirstUse(s.table, MaskCards(s.hand, mask), use)
      ensures Done(s, p, Selection(mask, use), start, bound)
    {
      match use
      case Lay(_) =>
      case Add(_) =>
    }
  }

  lemma TooFewToLay(s: SearchState, p: SearchPlay, mask: nat, start: nat, bound: nat)
    requires mask < Pow2(|s.hand|) && OnesCount(mask) < 3
    ensures LayDone(s, p, mask, start, bound) && NoComposition(MaskCards(s.hand, mask))
  {
    hide Done, ValidCards, FirstUse, OnesCount, MaskCards;
    forall variant
      ensures !ValidCards(variant, MaskCards(s.hand, mask))
      ensures !FirstUse(s.table, MaskCards(s.hand, mask), Lay(variant))
    {
      if ValidCards(variant, MaskCards(s.hand, mask)) {
        ThreeSelected(s.hand, mask, variant);
      }
      LaidFirst(s.table, MaskCards(s.hand, mask), variant);
    }
  }

  /** One more variant tried. */
  lemma LaidBoth(s: SearchState, p: SearchPlay, mask: nat, start: nat, bound: nat)
    requires var cards := MaskCards(s.hand, mask);
             && (FirstUse(s.table, cards, Lay(Set)) ==> Done(s, p, Selection(mask, Lay(Set)), start, bound))
             && (FirstUse(s.table, cards, Lay(Run)) ==> Done(s, p, Selection(mask, Lay(Run)), start, bound))
    ensures LayDone(s, p, mask, start, bound)
  {
    hide Done, FirstUse;
    forall variant | FirstUse(s.table, MaskCards(s.hand, mask), Lay(variant))
      ensures Done(s, p, Selection(mask, Lay(variant)), start, bound)
    {
      assert variant == Set || variant == Run;
    }
  }

  lemma NothingAddedYet(s: SearchState, p: SearchPlay, mask: nat, start: nat, bound: nat)
    ensures AddDone(s, p, mask, 0, start, bound)
  {
  }

  /** One more composition tried. */
  lemma AddedNext(s: SearchState, p: SearchPlay, mask: nat, ci: nat, start: nat, bound: nat)
    requires AddDone(s, p, mask, ci, start, bound)
    requires FirstUse(s.table, MaskCards(s.hand, mask), Add(ci)) ==> Done(s, p, Selection(mask, Add(ci)), start, bound)
    ensures AddDone(s, p, mask, ci + 1, start, bound)
  {
    hide Done, FirstUse;
  }

  lemma WithUses(p: SearchPlay, c: Selection)
    ensures With(p, c).used == Or(p.used, c.mask)
  {
  }

  lemma OneDone(s: SearchState, p: SearchPlay, c: Selection, choices: seq<Selection>, start: nat, bound: nat)
    requires Done(s, p, c, start, bound) && Ascending(s, Or(p.used, c.mask), start, bound, choices)
    ensures !ValidPlay(s, Extend(p, [c] + choices))
  {
    hide ValidPlay, Ascending;
    WithUses(p, c);
    assert ([c] + choices)[1..] == choices;
    if choices == [] {
      assert Extend(With(p, c), []) == With(p, c);
    }
  }

  /** If every mask has been tried, everything has. */
  lemma AllDone(s: SearchState, p: SearchPlay, start: nat, bound: nat)
    requires forall mask: nat :: start <= mask < bound && And(p.used, mask) == 0 ==>
               MaskDone(s, p, mask, mask + 1, bound)
    ensures Exhausted(s, p, start, bound)
  {
    hide ValidPlay, FirstUse, Done;
    forall choices: seq<Selection> | choices != [] && Ascending(s, p.used, start, bound, choices)
      ensures !ValidPlay(s, Extend(p, choices))
    {
      var c := choices[0];
      assert MaskDone(s, p, c.mask, c.mask + 1, bound);
      assert Done(s, p, Selection(c.mask, c.use), c.mask + 1, bound);
      OneDone(s, p, c, choices[1..], c.mask + 1, bound);
      assert [c] + choices[1..] == choices;
    }
  }

  /** Where the cards are inserted makes no difference to the composition being valid. */
  lemma FitsAnywhere(table: seq<Comp>, cards: seq<Card>, ci: nat, at: nat)
    requires ci < |table| && at <= |table[ci].cards|
    ensures Fits(table, cards, ci) <==> ValidCards(table[ci].variant, Inserted(table[ci].cards, at, cards))
  {
    hide ValidCards;
    var target := table[ci];
    InsertedCards(target.cards, 0, cards);
    InsertedCards(target.cards, at, cards);
    if ValidCards(target.variant, Inserted(target.cards, 0, cards)) {
      PointsIgnoreOrder(target.variant, Inserted(target.cards, 0, cards), Inserted(target.cards, at, cards));
    }
    if ValidCards(target.variant, Inserted(target.cards, at, cards)) {
      PointsIgnoreOrder(target.variant, Inserted(target.cards, at, cards), Inserted(target.cards, 0, cards));
    }
  }

  lemma LaidFirst(table: seq<Comp>, cards: seq<Card>, variant: Variant)
    ensures FirstUse(table, cards, Lay(variant)) ==> ValidCards(variant, cards)
    ensures ValidCards(Set, cards) ==> !FirstUse(table, cards, Lay(Run))
  {
  }

  /** A composition needs three cards. */
  lemma ThreeSelected(hand: seq<Card>, mask: nat, variant: Variant)
    requires mask < Pow2(|hand|) && ValidCards(variant, MaskCards(hand, mask))
    ensures OnesCount(mask) >= 3
  {
    MaskCardsCount(hand, mask);
  }

  // ---------------------------------------------------------------- what the filters really read

  /** The largest selection beside `used`, the discard aside: the last one the search for support looks at. */
  ghost predicate LastFree(s: SearchState, used: nat, mask: nat)
    requires s.hand != []
  {
    && 0 < mask < Pow2(|s.hand| - 1) && And(used, mask) == 0
    && forall m: nat :: m < Pow2(|s.hand| - 1) && And(used, m) == 0 ==> m <= mask
  }

  ghost predicate Useless(s: SearchState, mask: nat) {
    UselessBefore(s.table, MaskCards(s.hand, mask), |s.table|)
  }

  /** `m` is that selection, it has no use and at least as many cards as the mask. */
  ghost predicate LeftInBuffer(s: SearchState, mask: nat, m: nat)
    requires s.hand != []
  {
    LastFree(s, mask, m) && Useless(s, m) && |MaskCards(s.hand, mask)| <= |MaskCards(s.hand, m)|
  }

  /** The filter for a run reads the first cards of such a selection. */
  ghost predicate ReadAsRun(s: SearchState, mask: nat)
    requires s.hand != []
  {
    forall m: nat :: LeftInBuffer(s, mask, m) ==>
      ValidCards(Run, MaskCards(s.hand, m)[..|MaskCards(s.hand, mask)|])
  }

  ghost predicate RunOfSet(s: SearchState, mask: nat, variant: Variant)
    requires s.hand != []
  {
    variant == Run && Bit(mask, |s.hand| - 1) && ValidCards(Set, MaskCards(s.hand, mask))
  }

  /** If, without a reclaim, cards that are a set were laid as a run with the discard before the player opened, the
      filter for the run has read what the search for support left in the buffer. */
  ghost predicate RunFiltered(s: SearchState, p: SearchPlay)
    requires s.hand != [] && |p.masks| == |p.variants|
  {
    p.reclaims == [] && !s.hasOpened ==>
      forall i :: 0 <= i < |p.masks| && RunOfSet(s, p.masks[i], p.variants[i]) ==> ReadAsRun(s, p.masks[i])
  }

  lemma FilteredMore(s: SearchState, p: SearchPlay, c: Selection)
    requires s.hand != [] && |p.masks| == |p.variants| && RunFiltered(s, p)
    requires c.use.Add? || c.mask < Pow2(|s.hand| - 1)
    ensures RunFiltered(s, With(p, c))
  {
    hide MaskCards, ValidCards, ReadAsRun, Bit, Pow2, And, Or;
    if c.use.Lay? {
      HighBitsClear(c.mask, |s.hand| - 1, |s.hand| - 1);
    }
  }
}
