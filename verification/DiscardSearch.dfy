/** canTakeDiscardNow of state.go: a backtracking search over bit masks that decides whether
    the top of the discard pile may be taken. */
module DiscardSearch {
  import opened Cards
  import opened Compositions
  import opened CompositionObjects
  import opened JokerMeaning
  import opened TablePlay
  import opened Masks
  import opened SearchPlays
  import opened PlayValidation
  import opened SearchChoices

  /** Masks are 32-bit words and the overlay has 32 places; longer hands never occur. */
  const MAX_SEARCH_HAND := 30

  datatype ReclaimCandidate = ReclaimCandidate(used: nat, reclaim: JokerReclaim, usesDiscard: bool)

  /** What every step of the search knows: the play so far is covered by its masks, has no more parts
      than used bits, and there is a buffer large enough. */
  ghost predicate Searching(s: SearchState, p: SearchPlay, discardUsed: bool, discardMask: nat, bufLength: nat) {
    && AllOk(s.table) && Covers(s, p, discardUsed)
    && |s.hand| <= MAX_SEARCH_HAND && |s.hand| <= bufLength && discardMask == Pow2(|s.hand| - 1)
    && |p.masks| == |p.variants| && |p.reclaims| <= 1 && |p.masks| + |p.additions| + |p.reclaims| <= OnesCount(p.used)
    && RunFiltered(s, p)
  }

  lemma FitsOverlay(s: SearchState, p: SearchPlay, discardUsed: bool, discardMask: nat, bufLength: nat)
    requires Searching(s, p, discardUsed, discardMask, bufLength)
    ensures 2 * |p.reclaims| + |p.additions| <= OVERLAY_SIZE
  {
    MaskCardsCount(s.hand, p.used);
  }

  lemma BelowDiscard(s: SearchState, p: SearchPlay, discardUsed: bool, discardMask: nat, bufLength: nat, mask: nat)
    requires Searching(s, p, discardUsed, discardMask, bufLength) && mask < 2 * discardMask
    ensures mask < Pow2(|s.hand|)
  {
    hide CompOk;
  }

  lemma MoreCompositions(s: SearchState, p: SearchPlay, discardUsed: bool, discardMask: nat, bufLength: nat,
                         mask: nat, variant: Variant)
    requires Searching(s, p, discardUsed, discardMask, bufLength) && And(p.used, mask) == 0 &&
             0 < mask < 2 * discardMask
    requires discardUsed || Bit(mask, |s.hand| - 1)
    requires mask < discardMask || (s.hand != [] && RunFiltered(s, WithComposition(p, mask, variant)))
    ensures Searching(s, WithComposition(p, mask, variant), true, discardMask, bufLength)
  {
    BelowDiscard(s, p, discardUsed, discardMask, bufLength, mask);
    hide Covers, And, Or, OnesCount, CompOk, Pow2, Bit, RunFiltered;
    if mask < discardMask {
      FilteredMore(s, p, Selection(mask, Lay(variant)));
    }
    CoversComposition(s, p, mask, variant, discardUsed);
    DisjointOnes(p.used, mask);
    OnesOfNonzero(mask);
  }

  lemma MoreAdditions(s: SearchState, p: SearchPlay, discardUsed: bool, discardMask: nat, bufLength: nat, mask: nat,
                      compositionIndex: int, insertIndex: int)
    requires Searching(s, p, discardUsed, discardMask, bufLength) && And(p.used, mask) == 0 &&
             0 < mask < 2 * discardMask
    requires discardUsed || Bit(mask, |s.hand| - 1)
    ensures Searching(s, WithAddition(p, compositionIndex, insertIndex, mask), true, discardMask, bufLength)
  {
    BelowDiscard(s, p, discardUsed, discardMask, bufLength, mask);
    hide Covers, And, Or, OnesCount, CompOk, Pow2, Bit, LastFree, Useless, ValidCards, MaskCards;
    CoversAddition(s, p, compositionIndex, insertIndex, mask, discardUsed);
    DisjointOnes(p.used, mask);
    OnesOfNonzero(mask);
  }

  method IsSearchCompositionValid(cards: seq<Card>, variant: Variant) returns (valid: bool)
    ensures valid <==> ValidCards(variant, cards)
  {
    var comp := new Composition(variant, cards);
    valid := comp.IsValid();
  }

  method CanInsertCardsIntoComposition(comp: Comp, insertIndex: int, cards: seq<Card>) returns (valid: bool)
    ensures valid <==>
              0 <= insertIndex <= |comp.cards| && ValidCards(comp.variant, Inserted(comp.cards, insertIndex, cards))
  {
    if insertIndex < 0 || insertIndex > |comp.cards| {
      return false;
    }
    var combined := comp.cards[..insertIndex] + cards + comp.cards[insertIndex..];
    valid := IsSearchCompositionValid(combined, comp.variant);
  }

  /** A play the search may stop at: it passes validation and uses the discard. */
  ghost predicate Accepted(s: SearchState, p: SearchPlay, reclaims: seq<JokerReclaim>) {
    ValidPlay(s, p) && Covers(s, p, true) && p.reclaims == reclaims && |p.masks| == |p.variants| && RunFiltered(s, p)
  }

  method Validate(s: SearchState, p: SearchPlay, hasDiscardPlay: bool, buf: array<Card>,
                  ghost discardMask: nat, ghost mask: nat) returns (valid: bool)
    requires Searching(s, p, hasDiscardPlay, discardMask, buf.Length)
    modifies buf
    ensures EachIs(p.masks, mask) && EachSelects(p.additions, mask) && old(Shows(buf, s.hand, mask)) ==>
              Shows(buf, s.hand, mask)
    ensures valid <==> hasDiscardPlay && ValidPlay(s, p)
    ensures valid ==> Accepted(s, p, p.reclaims)
  {
    FitsOverlay(s, p, hasDiscardPlay, discardMask, buf.Length);
    valid := ValidateTablePlay(s, p, hasDiscardPlay, buf, mask);
  }

  // ---------------------------------------------------------------- supporting plays

  /** Add further compositions and additions until validation passes; `p` already uses the discard.
      The buffer is shared with validation, so the filters may read other cards than the mask's;
      validation selects its cards afresh, and the first use of each mask is filtered before that. */
  method SearchSupportCandidates(s: SearchState, discardMask: nat, startMask: nat, p: SearchPlay, buf: array<Card>)
    returns (found: bool, ghost q: SearchPlay)
    requires Searching(s, p, true, discardMask, buf.Length) && startMask > 0
    modifies buf
    ensures found ==> Accepted(s, q, p.reclaims)
    ensures !found ==> Exhausted(s, p, startMask, discardMask)
    ensures !found && s.hand != [] ==> forall m: nat :: startMask <= m && LastFree(s, p.used, m) && Useless(s, m) ==>
                                                          Shows(buf, s.hand, m)
    decreases discardMask - startMask, 2
  {
    hide Accepted, Searching, Bit, And, MaskDone, LayDone, AddDone, MaskCards, Exhausted, NoComposition, LastFree,
         Shows, UselessBefore;
    var mask := startMask;
    BufferLongEnough(s, p, true, discardMask, buf.Length);
    found, q := false, p;
    while mask < discardMask
      invariant mask >= startMask && !found
      invariant forall m: nat :: startMask <= m < mask && And(p.used, m) == 0 ==>
                  MaskDone(s, p, m, m + 1, discardMask)
      invariant forall m: nat :: startMask <= m < mask && LastFree(s, p.used, m) && Useless(s, m) ==>
                  Shows(buf, s.hand, m)
    {
      if And(p.used, mask) != 0 {
        NotFree(s, p.used, mask);
        mask := mask + 1;
        continue;
      }
      BelowDiscard(s, p, true, discardMask, buf.Length, mask);
      NoneFreeBefore(s, p.used, mask);
      var n := CardsForMask(s.hand, mask, buf);
      if OnesCount(mask) >= 3 {
        found, q := SupportingCompositions(s, discardMask, mask, p, buf, n);
        if found {
          return;
        }
      } else {
        TooFewToLay(s, p, mask, mask + 1, discardMask);
      }
      found, q := SupportingAdditions(s, discardMask, mask, p, buf, n);
      if found {
        return;
      }
      BothDone(s, p, mask, mask + 1, discardMask);
      ShownAgain(s, mask, buf, n);
      mask := mask + 1;
    }
    AllDone(s, p, startMask, discardMask);
    FreeIsBelow(s, p.used, discardMask);
  }

  lemma NotFree(s: SearchState, used: nat, mask: nat)
    requires And(used, mask) != 0 && s.hand != []
    ensures !LastFree(s, used, mask)
  {
  }

  lemma NoneFreeBefore(s: SearchState, used: nat, mask: nat)
    requires And(used, mask) == 0 && s.hand != [] && mask < Pow2(|s.hand| - 1)
    ensures forall m: nat :: LastFree(s, used, m) ==> mask <= m
  {
  }

  lemma FreeIsBelow(s: SearchState, used: nat, discardMask: nat)
    requires s.hand != [] && discardMask == Pow2(|s.hand| - 1)
    ensures forall m: nat :: LastFree(s, used, m) ==> m < discardMask
  {
  }

  lemma ShownAgain(s: SearchState, mask: nat, buf: array<Card>, n: nat)
    requires n <= buf.Length
    ensures buf[..n] == MaskCards(s.hand, mask) ==> Shows(buf, s.hand, mask)
  {
    assert |buf[..n]| == n;
  }

  lemma BufferLongEnough(s: SearchState, p: SearchPlay, discardUsed: bool, discardMask: nat, bufLength: nat)
    requires Searching(s, p, discardUsed, discardMask, bufLength)
    ensures |s.hand| <= bufLength && s.hand != [] && discardMask == Pow2(|s.hand| - 1)
  {
  }

  method SupportingCompositions(s: SearchState, discardMask: nat, mask: nat, p: SearchPlay, buf: array<Card>, n: nat)
    returns (found: bool, ghost q: SearchPlay)
    requires Searching(s, p, true, discardMask, buf.Length) && 0 < mask < discardMask && And(p.used, mask) == 0
    requires n <= buf.Length && buf[..n] == MaskCards(s.hand, mask)
    modifies buf
    ensures found ==> Accepted(s, q, p.reclaims)
    ensures !found ==> LayDone(s, p, mask, mask + 1, discardMask)
    ensures !found && NoComposition(MaskCards(s.hand, mask)) ==> buf[..n] == MaskCards(s.hand, mask)
    decreases discardMask - mask, 1
  {
    hide Accepted, Searching, Bit, And, MaskCards, ValidCards, LayDone, Exhausted, ValidPlay;
    var variants := [Set, Run];
    found, q := false, p;
    for i := 0 to 2
      invariant !found
      invariant i == 0 || (i == 1 && !ValidCards(Set, MaskCards(s.hand, mask))) ==>
                  buf[..n] == MaskCards(s.hand, mask)
      invariant NoComposition(MaskCards(s.hand, mask)) ==> buf[..n] == MaskCards(s.hand, mask)
      invariant i > 0 && FirstUse(s.table, MaskCards(s.hand, mask), Lay(Set)) ==>
                  Done(s, p, Selection(mask, Lay(Set)), mask + 1, discardMask)
      invariant i > 1 && FirstUse(s.table, MaskCards(s.hand, mask), Lay(Run)) ==>
                  Done(s, p, Selection(mask, Lay(Run)), mask + 1, discardMask)
    {
      var filtered := IsSearchCompositionValid(buf[..n], variants[i]);
      if !filtered {
        continue;
      }
      var next := WithComposition(p, mask, variants[i]);
      MoreCompositions(s, p, true, discardMask, buf.Length, mask, variants[i]);
      found := Validate(s, next, true, buf, discardMask, mask);
      if found {
        return found, next;
      }
      found, q := SearchSupportCandidates(s, discardMask, mask + 1, next, buf);
      if found {
        return;
      }
    }
    LaidBoth(s, p, mask, mask + 1, discardMask);
  }

  method SupportingAdditions(s: SearchState, discardMask: nat, mask: nat, p: SearchPlay, buf: array<Card>, n: nat)
    returns (found: bool, ghost q: SearchPlay)
    requires Searching(s, p, true, discardMask, buf.Length) && 0 < mask < discardMask && And(p.used, mask) == 0
    requires n <= buf.Length && (NoComposition(MaskCards(s.hand, mask)) ==> buf[..n] == MaskCards(s.hand, mask))
    modifies buf
    ensures found ==> Accepted(s, q, p.reclaims)
    ensures !found ==> AddDone(s, p, mask, |s.table|, mask + 1, discardMask)
    ensures !found && Useless(s, mask) ==> buf[..n] == MaskCards(s.hand, mask)
    decreases discardMask - mask, 1
  {
    hide Accepted, Searching, Bit, And, MaskCards, ValidCards, NoComposition, Exhausted, ValidPlay, AddDone, Fits;
    found, q := false, p;
    NothingAddedYet(s, p, mask, mask + 1, discardMask);
    for compositionIndex := 0 to |s.table|
      invariant !found && AddDone(s, p, mask, compositionIndex, mask + 1, discardMask)
      invariant UselessBefore(s.table, MaskCards(s.hand, mask), compositionIndex) ==>
                  buf[..n] == MaskCards(s.hand, mask)
    {
      var target := s.table[compositionIndex];
      for insertIndex := 0 to |target.cards| + 1
        invariant !found
        invariant UselessBefore(s.table, MaskCards(s.hand, mask), compositionIndex) &&
                  (insertIndex == 0 || !Fits(s.table, MaskCards(s.hand, mask), compositionIndex)) ==>
                    buf[..n] == MaskCards(s.hand, mask)
        invariant insertIndex > 0 && FirstUse(s.table, MaskCards(s.hand, mask), Add(compositionIndex)) ==>
                    Done(s, p, Selection(mask, Add(compositionIndex)), mask + 1, discardMask)
      {
        FitsAnywhere(s.table, MaskCards(s.hand, mask), compositionIndex, insertIndex);
        var filtered := CanInsertCardsIntoComposition(target, insertIndex, buf[..n]);
        if !filtered {
          continue;
        }
        var next := WithAddition(p, compositionIndex, insertIndex, mask);
        MoreAdditions(s, p, true, discardMask, buf.Length, mask, compositionIndex, insertIndex);
        found := Validate(s, next, true, buf, discardMask, mask);
        if found {
          return found, next;
        }
        found, q := SearchSupportCandidates(s, discardMask, mask + 1, next, buf);
        if found {
          return;
        }
      }
      AddedNext(s, p, mask, compositionIndex, mask + 1, discardMask);
    }
  }

  // ---------------------------------------------------------------- plays that use the discard

  /** A new composition of the discard and the cards of `subset`. */
  ghost predicate DirectPlay(s: SearchState, p: SearchPlay, discardMask: nat, subset: nat, variant: Variant) {
    var mask := Or(subset, discardMask);
    And(p.used, mask) == 0 && OnesCount(subset) >= 2 && ValidPlay(s, WithComposition(p, mask, variant))
  }

  /** The filters are exact once the player has opened; before, for sets and for runs that are not also sets. */
  ghost predicate Exact(s: SearchState, discardMask: nat, subset: nat, variant: Variant) {
    s.hasOpened || variant == Set || !ValidCards(Set, MaskCards(s.hand, Or(subset, discardMask)))
  }

  ghost predicate NoDirectPlay(s: SearchState, p: SearchPlay, discardMask: nat, bound: nat) {
    forall subset: nat, variant ::
      subset < bound && Exact(s, discardMask, subset, variant) ==> !DirectPlay(s, p, discardMask, subset, variant)
  }

  /** No addition of the discard with the cards of `subset` to one composition of the table. */
  ghost predicate NoAddition(s: SearchState, p: SearchPlay, mask: nat) {
    forall ci: int, at: int :: !ValidPlay(s, WithAddition(p, ci, at, mask))
  }

  ghost predicate NoAdditionPlay(s: SearchState, p: SearchPlay, discardMask: nat, bound: nat) {
    forall subset: nat :: subset < bound && And(p.used, Or(subset, discardMask)) == 0 ==>
      NoAddition(s, p, Or(subset, discardMask))
  }

  /** Nothing chosen yet but perhaps a reclaim. */
  predicate Bare(p: SearchPlay) {
    p.masks == [] && p.variants == [] && p.additions == [] && (p.reclaims == [] ==> p.used == 0)
  }

  lemma DiscardMask(s: SearchState, p: SearchPlay, discardMask: nat, bufLength: nat, subset: nat)
    requires Searching(s, p, false, discardMask, bufLength) && subset < discardMask
    ensures 0 < Or(subset, discardMask) < 2 * discardMask && Bit(Or(subset, discardMask), |s.hand| - 1)
  {
    var n := |s.hand| - 1;
    Pow2Grows(n, n + 1);
    OrBelow(subset, discardMask, n + 1);
    OrBits(subset, discardMask, n);
    Pow2Bits(n, n);
  }

  lemma DirectIsValid(s: SearchState, p: SearchPlay, mask: nat, variant: Variant)
    requires ValidPlay(s, WithComposition(p, mask, variant)) && |p.masks| == |p.variants|
    ensures ValidCards(variant, MaskCards(s.hand, mask))
  {
    hide ValidCards, MaskCards, TableMoves;
    var q := WithComposition(p, mask, variant);
    assert q.variants[|p.masks|] == variant && q.masks[|p.masks|] == mask;
  }

  /** What the filter for a run has read if the same cards are a set. */
  lemma FilteredNow(s: SearchState, p: SearchPlay, mask: nat, variant: Variant, i: nat, buf: array<Card>, n: nat)
    requires s.hand != [] && Bare(p) && n <= buf.Length && n == |MaskCards(s.hand, mask)|
    requires i > 0 && !s.hasOpened && ValidCards(Set, MaskCards(s.hand, mask)) ==>
               forall m: nat :: LastFree(s, Or(p.used, mask), m) && Useless(s, m) ==> Shows(buf, s.hand, m)
    requires ValidCards(variant, buf[..n]) && (variant == Run ==> i > 0)
    ensures RunFiltered(s, WithComposition(p, mask, variant))
  {
    hide MaskCards, ValidCards, LastFree, Useless, Bit, And;
    var q := WithComposition(p, mask, variant);
    assert q.masks == [mask] && q.variants == [variant];
    if variant == Run && p.reclaims == [] && !s.hasOpened && ValidCards(Set, MaskCards(s.hand, mask)) {
      forall m: nat | LeftInBuffer(s, mask, m)
        ensures ValidCards(Run, MaskCards(s.hand, m)[..n])
      {
        assert Or(p.used, mask) == mask;
        assert buf[..n] == buf[..|MaskCards(s.hand, m)|][..n];
      }
      assert ReadAsRun(s, mask);
    }
  }

  /** The discard starts a new composition; a player who has not opened may need support. */
  method DirectCompositions(s: SearchState, discardMask: nat, subset: nat, p: SearchPlay, buf: array<Card>, n: nat)
    returns (found: bool, ghost q: SearchPlay)
    requires Searching(s, p, false, discardMask, buf.Length) && subset < discardMask &&
             And(p.used, Or(subset, discardMask)) == 0
    requires Bare(p) && n <= buf.Length && buf[..n] == MaskCards(s.hand, Or(subset, discardMask))
    modifies buf
    ensures found ==> Accepted(s, q, p.reclaims)
    ensures !found && (s.hasOpened || NoComposition(MaskCards(s.hand, Or(subset, discardMask)))) ==>
              buf[..n] == MaskCards(s.hand, Or(subset, discardMask))
    ensures !found && !s.hasOpened ==> LayDone(s, p, Or(subset, discardMask), 1, discardMask)
    ensures !found ==> forall variant :: Exact(s, discardMask, subset, variant) ==>
              !DirectPlay(s, p, discardMask, subset, variant)
  {
    hide Accepted, Bit, And, Or, ValidPlay, ValidCards, MaskCards, OnesCount, Covers, CompOk, AllOk, LayDone, Exhausted;
    var mask := Or(subset, discardMask);
    BufferLongEnough(s, p, false, discardMask, buf.Length);
    DiscardMask(s, p, discardMask, buf.Length, subset);
    assert n == |buf[..n]| == |MaskCards(s.hand, mask)|;
    var variants := [Set, Run];
    found, q := false, p;
    for i := 0 to 2
      invariant !found
      invariant s.hasOpened || i == 0 || (i == 1 && !ValidCards(Set, MaskCards(s.hand, mask))) ==>
                  buf[..n] == MaskCards(s.hand, mask)
      invariant i > 0 ==> !ValidPlay(s, WithComposition(p, mask, Set))
      invariant i > 1 && (s.hasOpened || !ValidCards(Set, MaskCards(s.hand, mask))) ==>
                  !ValidPlay(s, WithComposition(p, mask, Run))
      invariant NoComposition(MaskCards(s.hand, mask)) ==> buf[..n] == MaskCards(s.hand, mask)
      invariant i > 0 && !s.hasOpened && FirstUse(s.table, MaskCards(s.hand, mask), Lay(Set)) ==>
                  Done(s, p, Selection(mask, Lay(Set)), 1, discardMask)
      invariant i > 0 && !s.hasOpened && ValidCards(Set, MaskCards(s.hand, mask)) ==>
                  forall m: nat :: LastFree(s, Or(p.used, mask), m) && Useless(s, m) ==> Shows(buf, s.hand, m)
      invariant i > 1 && !s.hasOpened && FirstUse(s.table, MaskCards(s.hand, mask), Lay(Run)) ==>
                  Done(s, p, Selection(mask, Lay(Run)), 1, discardMask)
    {
      if ValidPlay(s, WithComposition(p, mask, variants[i])) {
        DirectIsValid(s, p, mask, variants[i]);
      }
      var filtered := IsSearchCompositionValid(buf[..n], variants[i]);
      if !filtered {
        continue;
      }
      var next := WithComposition(p, mask, variants[i]);
      FilteredNow(s, p, mask, variants[i], i, buf, n);
      MoreCompositions(s, p, false, discardMask, buf.Length, mask, variants[i]);
      assert next.masks == [mask] && next.additions == [];
      found := Validate(s, next, true, buf, discardMask, mask);
      if found {
        return found, next;
      }
      if !s.hasOpened {
        found, q := SearchSupportCandidates(s, discardMask, 1, next, buf);
        if found {
          return;
        }
      }
    }
    if !s.hasOpened {
      LaidBoth(s, p, mask, 1, discardMask);
    }
    forall variant | Exact(s, discardMask, subset, variant)
      ensures !DirectPlay(s, p, discardMask, subset, variant)
    {
      assert variant == Set || variant == Run;
    }
  }

  lemma OneAddition(a: Adding, x: Addition)
    ensures AddAll(a, [x]) == AddStep(a, x)
  {
    assert [x][..0] == [];
    assert AddAll(a, []) == Some(a);
  }

  lemma OneReclaim(table: seq<Comp>, r: JokerReclaim)
    ensures ReclaimAll(table, [r]) == ReclaimStep(Reclaiming(table, [], [], []), r)
  {
    assert [r][..0] == [];
    assert ReclaimAll(table, []) == Some(Reclaiming(table, [], [], []));
  }

  /** What one reclaim, if any, does to a composition: nothing, or a natural card takes a joker's place. */
  lemma OneReclaimChanges(table: seq<Comp>, reclaims: seq<JokerReclaim>, ci: nat) returns (c: Card)
    requires AllOk(table) && |reclaims| <= 1 && ReclaimAll(table, reclaims).Some? && ci < |table|
    ensures var after := ReclaimAll(table, reclaims).value.table;
            |after| == |table| && after[ci].variant == table[ci].variant &&
            (after[ci] == table[ci] ||
             (c.Natural? && Joker in multiset(table[ci].cards) &&
              multiset(after[ci].cards) == multiset(table[ci].cards) - multiset{Joker} + multiset{c}))
  {
    c := Joker;
    if |reclaims| == 1 {
      var r := reclaims[0];
      assert reclaims == [r];
      OneReclaim(table, r);
      hide CompOk, ReclaimJoker;
      ReclaimSucceeds(table[r.compositionIndex], r.jokerIndex, r.replacement);
      if CanReclaimJoker(table[r.compositionIndex], r.jokerIndex, r.replacement) {
        c := r.replacement;
        assert table[r.compositionIndex].cards[r.jokerIndex] in multiset(table[r.compositionIndex].cards);
      }
    }
  }

  /** The filter looks at the table before the reclaim; it never stops an addition that validation would pass. */
  lemma AdditionPassesFilter(s: SearchState, p: SearchPlay, ci: int, at: int, mask: nat)
    requires AllOk(s.table) && Bare(p) && |p.reclaims| <= 1 && ValidPlay(s, WithAddition(p, ci, at, mask))
    ensures 0 <= ci < |s.table| && 0 <= at <= |s.table[ci].cards|
    ensures ValidCards(s.table[ci].variant, Inserted(s.table[ci].cards, at, MaskCards(s.hand, mask)))
  {
    hide CompOk, MaskCards, ReclaimAll, FinishAll;
    var cards := MaskCards(s.hand, mask);
    assert AdditionsOf(s.hand, WithAddition(p, ci, at, mask).additions) == [Addition(ci, Some(at), cards)];
    var r := ReclaimAll(s.table, p.reclaims).value;
    OneAddition(Adding(r.table, r.deferred, [], 0), Addition(ci, Some(at), cards));
    ReclaimAllKeeps(s.table, p.reclaims);
    var c := OneReclaimChanges(s.table, p.reclaims, ci);
    if r.table[ci] != s.table[ci] {
      SameSize(s.table[ci].cards, r.table[ci].cards, c);
      InsertedCards(r.table[ci].cards, at, cards);
      InsertedCards(s.table[ci].cards, at, cards);
      BackToJoker(multiset(s.table[ci].cards), multiset(r.table[ci].cards), multiset(cards), c);
      JokerInstead(s.table[ci].variant, Inserted(r.table[ci].cards, at, cards),
                   Inserted(s.table[ci].cards, at, cards), c);
    }
  }

  lemma SameSize(before: seq<Card>, after: seq<Card>, c: Card)
    requires Joker in multiset(before) && multiset(after) == multiset(before) - multiset{Joker} + multiset{c}
    ensures |after| == |before|
  {
    assert |multiset(after)| == |multiset(before)|;
  }

  lemma BackToJoker(before: multiset<Card>, after: multiset<Card>, more: multiset<Card>, c: Card)
    requires Joker in before && after == before - multiset{Joker} + multiset{c}
    ensures c in after + more && before + more == (after + more) - multiset{c} + multiset{Joker}
  {
  }

  /** Only a player who has opened can make a lone addition, and then the filter lets it through. */
  lemma LoneAddition(s: SearchState, p: SearchPlay, discardMask: nat, bufLength: nat, ci: int, at: int, mask: nat)
    requires Searching(s, p, false, discardMask, bufLength) && Bare(p)
    ensures ValidPlay(s, WithAddition(p, ci, at, mask)) ==>
              s.hasOpened && 0 <= ci < |s.table| && 0 <= at <= |s.table[ci].cards| &&
              ValidCards(s.table[ci].variant, Inserted(s.table[ci].cards, at, MaskCards(s.hand, mask)))
  {
    if ValidPlay(s, WithAddition(p, ci, at, mask)) {
      AdditionPassesFilter(s, p, ci, at, mask);
    }
  }

  /** The discard joins a composition on the table. */
  method DirectAdditions(s: SearchState, discardMask: nat, mask: nat, p: SearchPlay, buf: array<Card>, n: nat)
    returns (found: bool, ghost q: SearchPlay)
    requires Searching(s, p, false, discardMask, buf.Length) && 0 < mask < 2 * discardMask && And(p.used, mask) == 0
    requires Bit(mask, |s.hand| - 1) && n <= buf.Length && Bare(p)
    requires s.hasOpened || NoComposition(MaskCards(s.hand, mask)) ==> buf[..n] == MaskCards(s.hand, mask)
    modifies buf
    ensures found ==> Accepted(s, q, p.reclaims)
    ensures !found ==> NoAddition(s, p, mask)
    ensures !found && !s.hasOpened ==> AddDone(s, p, mask, |s.table|, 1, discardMask)
  {
    hide Accepted, Searching, Bit, And, ValidPlay, MaskCards, ValidCards, NoComposition, Exhausted, AddDone, Fits;
    found, q := false, p;
    NothingAddedYet(s, p, mask, 1, discardMask);
    for compositionIndex := 0 to |s.table|
      invariant !found && (!s.hasOpened ==> AddDone(s, p, mask, compositionIndex, 1, discardMask))
      invariant s.hasOpened || UselessBefore(s.table, MaskCards(s.hand, mask), compositionIndex) ==>
                  buf[..n] == MaskCards(s.hand, mask)
      invariant forall ci: int, at: int :: 0 <= ci < compositionIndex ==> !ValidPlay(s, WithAddition(p, ci, at, mask))
    {
      var target := s.table[compositionIndex];
      for insertIndex := 0 to |target.cards| + 1
        invariant !found && (s.hasOpened ==> buf[..n] == MaskCards(s.hand, mask))
        invariant UselessBefore(s.table, MaskCards(s.hand, mask), compositionIndex) &&
                  (insertIndex == 0 || !Fits(s.table, MaskCards(s.hand, mask), compositionIndex)) ==>
                    buf[..n] == MaskCards(s.hand, mask)
        invariant insertIndex > 0 && !s.hasOpened &&
                  FirstUse(s.table, MaskCards(s.hand, mask), Add(compositionIndex)) ==>
                    Done(s, p, Selection(mask, Add(compositionIndex)), 1, discardMask)
        invariant forall at: int :: 0 <= at < insertIndex ==> !ValidPlay(s, WithAddition(p, compositionIndex, at, mask))
      {
        LoneAddition(s, p, discardMask, buf.Length, compositionIndex, insertIndex, mask);
        FitsAnywhere(s.table, MaskCards(s.hand, mask), compositionIndex, insertIndex);
        var filtered := CanInsertCardsIntoComposition(target, insertIndex, buf[..n]);
        if !filtered {
          continue;
        }
        var next := WithAddition(p, compositionIndex, insertIndex, mask);
        MoreAdditions(s, p, false, discardMask, buf.Length, mask, compositionIndex, insertIndex);
        found := Validate(s, next, true, buf, discardMask, mask);
        if found {
          return found, next;
        }
        if !s.hasOpened {
          found, q := SearchSupportCandidates(s, discardMask, 1, next, buf);
          if found {
            return;
          }
        }
      }
      AllPlacesTried(s, p, discardMask, buf.Length, compositionIndex, mask);
      if !s.hasOpened {
        AddedNext(s, p, mask, compositionIndex, 1, discardMask);
      }
    }
    NoOtherPlace(s, p, discardMask, buf.Length, mask);
  }

  lemma AllPlacesTried(s: SearchState, p: SearchPlay, discardMask: nat, bufLength: nat, ci: nat, mask: nat)
    requires Searching(s, p, false, discardMask, bufLength) && Bare(p) && ci < |s.table|
    requires forall at: int :: 0 <= at <= |s.table[ci].cards| ==> !ValidPlay(s, WithAddition(p, ci, at, mask))
    ensures forall at: int :: !ValidPlay(s, WithAddition(p, ci, at, mask))
  {
    hide Searching, ValidPlay, ValidCards;
    forall at: int
      ensures !ValidPlay(s, WithAddition(p, ci, at, mask))
    {
      LoneAddition(s, p, discardMask, bufLength, ci, at, mask);
    }
  }

  lemma NoOtherPlace(s: SearchState, p: SearchPlay, discardMask: nat, bufLength: nat, mask: nat)
    requires Searching(s, p, false, discardMask, bufLength) && Bare(p)
    requires forall ci: int, at: int :: 0 <= ci < |s.table| ==> !ValidPlay(s, WithAddition(p, ci, at, mask))
    ensures NoAddition(s, p, mask)
  {
    hide Searching, ValidPlay, ValidCards;
    forall ci: int, at: int
      ensures !ValidPlay(s, WithAddition(p, ci, at, mask))
    {
      LoneAddition(s, p, discardMask, bufLength, ci, at, mask);
    }
  }

  /** For a player who has not opened: no first use of the discard with fewer than `bound` other cards, with further
      cards put to their first use, makes a valid play. */
  ghost predicate NoOpeningPlay(s: SearchState, p: SearchPlay, discardMask: nat, bound: nat) {
    forall subset: nat :: subset < bound && And(p.used, Or(subset, discardMask)) == 0 ==>
      MaskDone(s, p, Or(subset, discardMask), 1, discardMask)
  }

  function StartOf(candidate: Option<ReclaimCandidate>): SearchPlay {
    match candidate
    case None => SearchPlay([], [], [], [], 0)
    case Some(c) => SearchPlay([], [], [], [c.reclaim], c.used)
  }

  ghost predicate UsesDiscard(candidate: Option<ReclaimCandidate>) {
    candidate.Some? && candidate.value.usesDiscard
  }

  /** What a failed search from here tells a player who has not opened. */
  ghost predicate NoOpening(s: SearchState, candidate: Option<ReclaimCandidate>, discardMask: nat) {
    if UsesDiscard(candidate) then Exhausted(s, StartOf(candidate), 1, discardMask)
    else NoOpeningPlay(s, StartOf(candidate), discardMask, discardMask)
  }

  method HasLegalPlayWithDiscard(s: SearchState, discardMask: nat, buf: array<Card>,
                                 candidate: Option<ReclaimCandidate>)
    returns (found: bool, ghost q: SearchPlay)
    requires Searching(s, StartOf(candidate), UsesDiscard(candidate), discardMask, buf.Length)
    modifies buf
    ensures found ==> Accepted(s, q, StartOf(candidate).reclaims)
    ensures !found && candidate.Some? && UsesDiscard(candidate) ==> !ValidPlay(s, StartOf(candidate))
    ensures !found && !UsesDiscard(candidate) ==>
              NoDirectPlay(s, StartOf(candidate), discardMask, discardMask) &&
              NoAdditionPlay(s, StartOf(candidate), discardMask, discardMask)
    ensures !found && !s.hasOpened ==> NoOpening(s, candidate, discardMask)
  {
    hide Accepted, Bit, And, Or, OnesCount, Searching, CompOk, DirectPlay, Exact, ValidPlay, NoAddition, MaskDone,
         Exhausted;
    var p := StartOf(candidate);
    var hasDiscardPlay := false;
    found, q := false, p;
    if candidate.Some? {
      hasDiscardPlay := candidate.value.usesDiscard;
      found := Validate(s, p, hasDiscardPlay, buf, discardMask, 0);
      if found {
        return;
      }
    }
    if hasDiscardPlay {
      found, q := SearchSupportCandidates(s, discardMask, 1, p, buf);
      return;
    }
    for subset := 0 to discardMask
      invariant !found && NoDirectPlay(s, p, discardMask, subset) && NoAdditionPlay(s, p, discardMask, subset)
      invariant !s.hasOpened ==> NoOpeningPlay(s, p, discardMask, subset)
    {
      found, q := TrySubset(s, discardMask, subset, p, buf);
      if found {
        return;
      }
    }
  }

  lemma DiscardMaskCounts(s: SearchState, p: SearchPlay, discardMask: nat, bufLength: nat, subset: nat)
    requires Searching(s, p, false, discardMask, bufLength) && subset < discardMask
    ensures OnesCount(Or(subset, discardMask)) == OnesCount(subset) + 1 && Or(subset, discardMask) < Pow2(|s.hand|)
  {
    hide Covers, CompOk, Or, And, OnesCount, Bit;
    BufferLongEnough(s, p, false, discardMask, bufLength);
    var n := |s.hand| - 1;
    if And(subset, discardMask) != 0 {
      var i := SomeBit(And(subset, discardMask));
      AndBits(subset, discardMask, i);
      Pow2Bits(n, i);
      HighBitsClear(subset, n, n);
      assert false;
    }
    DisjointOnes(subset, discardMask);
    OneBit(n);
    DiscardMask(s, p, discardMask, bufLength, subset);
  }

  method TrySubset(s: SearchState, discardMask: nat, subset: nat, p: SearchPlay, buf: array<Card>)
    returns (found: bool, ghost q: SearchPlay)
    requires Searching(s, p, false, discardMask, buf.Length) && subset < discardMask && Bare(p)
    modifies buf
    ensures found ==> Accepted(s, q, p.reclaims)
    ensures !found ==> forall variant :: Exact(s, discardMask, subset, variant) ==>
              !DirectPlay(s, p, discardMask, subset, variant)
    ensures !found && And(p.used, Or(subset, discardMask)) == 0 ==> NoAddition(s, p, Or(subset, discardMask))
    ensures !found && !s.hasOpened && And(p.used, Or(subset, discardMask)) == 0 ==>
              MaskDone(s, p, Or(subset, discardMask), 1, discardMask)
  {
    hide Accepted, Bit, And, Or, OnesCount, Searching, CompOk, ValidPlay, Exact, NoAddition, MaskCards, MaskDone,
         LayDone, AddDone, NoComposition;
    var mask := Or(subset, discardMask);
    found, q := false, p;
    if And(p.used, mask) != 0 {
      return;
    }
    BufferLongEnough(s, p, false, discardMask, buf.Length);
    DiscardMask(s, p, discardMask, buf.Length, subset);
    DiscardMaskCounts(s, p, discardMask, buf.Length, subset);
    var n := CardsForMask(s.hand, mask, buf);
    if OnesCount(subset) >= 2 {
      found, q := DirectCompositions(s, discardMask, subset, p, buf, n);
      if found {
        return;
      }
    } else {
      TooFewToLay(s, p, mask, 1, discardMask);
    }
    found, q := DirectAdditions(s, discardMask, mask, p, buf, n);
    if !found && !s.hasOpened {
      BothDone(s, p, mask, 1, discardMask);
    }
  }

  // ---------------------------------------------------------------- taking the discard

  function BaseState(hand: seq<Card>, discard: Card, table: seq<Comp>, hasOpened: bool): SearchState {
    SearchState(hand + [discard], table, hasOpened, 0)
  }

  /** A joker about to be reclaimed is put before the discard, which stays last. */
  function SyntheticState(hand: seq<Card>, discard: Card, table: seq<Comp>, hasOpened: bool): SearchState {
    SearchState(hand + [Joker, discard], table, hasOpened, 1)
  }

  lemma StartSearching(s: SearchState, candidate: Option<ReclaimCandidate>, i: nat)
    requires AllOk(s.table) && s.hand != [] && |s.hand| <= MAX_SEARCH_HAND
    requires candidate.Some? ==> var c := candidate.value;
               i < |s.hand| && s.hand[i] == c.reclaim.replacement && c.used == Pow2(i) &&
               c.usesDiscard == (i == |s.hand| - 1)
    ensures Searching(s, StartOf(candidate), UsesDiscard(candidate), Pow2(|s.hand| - 1), |s.hand|)
  {
    if candidate.Some? {
      CoversReclaim(s, candidate.value.reclaim, i);
      OnesOfNonzero(Pow2(i));
    } else {
      CoversNothing(s);
    }
  }

  /** Search the base state, or the state with one reclaim made in advance. */
  method SearchFrom(s: SearchState, candidate: Option<ReclaimCandidate>, ghost i: nat) returns (found: bool,
                    ghost q: SearchPlay)
    requires AllOk(s.table) && s.hand != [] && |s.hand| <= MAX_SEARCH_HAND
    requires candidate.Some? ==> var c := candidate.value;
               i < |s.hand| && s.hand[i] == c.reclaim.replacement && c.used == Pow2(i) &&
               c.usesDiscard == (i == |s.hand| - 1)
    ensures found ==> Accepted(s, q, StartOf(candidate).reclaims)
    ensures !found && candidate.Some? && UsesDiscard(candidate) ==> !ValidPlay(s, StartOf(candidate))
    ensures !found && !UsesDiscard(candidate) ==>
              NoDirectPlay(s, StartOf(candidate), Pow2(|s.hand| - 1), Pow2(|s.hand| - 1)) &&
              NoAdditionPlay(s, StartOf(candidate), Pow2(|s.hand| - 1), Pow2(|s.hand| - 1))
    ensures !found && !s.hasOpened ==> NoOpening(s, candidate, Pow2(|s.hand| - 1))
  {
    hide Accepted, NoDirectPlay, NoAdditionPlay, CompOk, ValidPlay, NoOpening;
    StartSearching(s, candidate, i);
    var buf := new Card[|s.hand|](_ => Joker);
    found, q := HasLegalPlayWithDiscard(s, Pow2(|s.hand| - 1), buf, candidate);
  }

  /** No reclaim of one joker by one card of the hand leads to a play of the discard. */
  ghost predicate NoReclaimPlay(hand: seq<Card>, discard: Card, table: seq<Comp>, hasOpened: bool, ci: nat, ji: nat,
                                k: nat)
    requires ci < |table| && k < |hand|
  {
    var s := SyntheticState(hand, discard, table, hasOpened);
    var p := SearchPlay([], [], [], [JokerReclaim(ci, ji, hand[k])], Pow2(k));
    CanReclaimJoker(table[ci], ji, hand[k]) ==>
      NoDirectPlay(s, p, Pow2(|hand| + 1), Pow2(|hand| + 1)) &&
      NoAdditionPlay(s, p, Pow2(|hand| + 1), Pow2(|hand| + 1)) &&
      (!hasOpened ==> NoOpeningPlay(s, p, Pow2(|hand| + 1), Pow2(|hand| + 1)))
  }

  /** The discard itself reclaims no joker. */
  ghost predicate NoDiscardReclaim(hand: seq<Card>, discard: Card, table: seq<Comp>, hasOpened: bool, ci: nat, ji: nat)
    requires ci < |table|
  {
    var s := BaseState(hand, discard, table, hasOpened);
    var p := SearchPlay([], [], [], [JokerReclaim(ci, ji, discard)], Pow2(|hand|));
    CanReclaimJoker(table[ci], ji, discard) ==>
      !ValidPlay(s, p) && (!hasOpened ==> Exhausted(s, p, 1, Pow2(|hand|)))
  }

  /** At most one reclaim, and that at once. */
  ghost predicate OneAtOnce(table: seq<Comp>, reclaims: seq<JokerReclaim>) {
    |reclaims| <= 1 && forall i :: 0 <= i < |reclaims| ==>
      0 <= reclaims[i].compositionIndex < |table| &&
      CanReclaimJoker(table[reclaims[i].compositionIndex], reclaims[i].jokerIndex, reclaims[i].replacement)
  }

  /** A joker of the table may be replaced from the hand or by the discard. */
  method TryReclaim(hand: seq<Card>, discard: Card, table: seq<Comp>, hasOpened: bool, ci: nat, ji: nat, k: nat)
    returns (found: bool, ghost s: SearchState, ghost q: SearchPlay)
    requires AllOk(table) && |hand| + 2 <= MAX_SEARCH_HAND && ci < |table| && k <= |hand| && ji < |table[ci].cards|
    ensures found ==>
              Accepted(s, q, q.reclaims) && BaseOf(s, hand + [discard], q) && s.table == table &&
              s.hasOpened == hasOpened && OneAtOnce(table, q.reclaims) && q.reclaims != []
    ensures !found && k < |hand| ==> NoReclaimPlay(hand, discard, table, hasOpened, ci, ji, k)
    ensures !found && k == |hand| ==> NoDiscardReclaim(hand, discard, table, hasOpened, ci, ji)
  {
    hide Accepted, NoDirectPlay, NoAdditionPlay, NoOpeningPlay, Exhausted, CompOk, AllOk, Pow2, ValidPlay;
    var availableCards := hand + [discard];
    var comp := table[ci];
    var replacement := availableCards[k];
    found, s, q := false, BaseState(hand, discard, table, hasOpened), StartOf(None);
    if !CanReclaimJoker(comp, ji, replacement) {
      return;
    }
    var usesDiscard := k == |availableCards| - 1;
    var candidate := Some(ReclaimCandidate(Pow2(k), JokerReclaim(ci, ji, replacement), usesDiscard));
    if usesDiscard {
      found, q := SearchFrom(BaseState(hand, discard, table, hasOpened), candidate, k);
      if found {
        AcceptedIsBased(s, q, StartOf(candidate).reclaims, hand, discard);
      }
    } else {
      var candidateCards := availableCards[..|availableCards| - 1] + [comp.cards[ji],
                                                                      availableCards[|availableCards| - 1]];
      var state := SearchState(candidateCards, table, hasOpened, 1);
      assert candidateCards == hand + [Joker, discard];
      assert CanReclaimJoker(table[ci], ji, hand[k]);
      s := state;
      found, q := SearchFrom(state, candidate, k);
      if found {
        AcceptedIsBased(s, q, StartOf(candidate).reclaims, hand, discard);
      }
    }
  }

  lemma AcceptedIsBased(s: SearchState, q: SearchPlay, reclaims: seq<JokerReclaim>, hand: seq<Card>, discard: Card)
    requires Accepted(s, q, reclaims) && s.syntheticReclaims <= |reclaims|
    requires s.hand == if s.syntheticReclaims == 0 then hand + [discard] else hand + [Joker, discard]
    requires s.syntheticReclaims <= 1 && (s.syntheticReclaims > 0 ==> Reclaimable(s.table, hand))
    ensures Accepted(s, q, q.reclaims) && BaseOf(s, hand + [discard], q) && q.reclaims == reclaims
  {
    hide ValidPlay, Covers, Reclaimable;
    assert (hand + [discard])[..|hand|] == hand;
    WithJoker(hand, discard);
  }

  lemma WithJoker(hand: seq<Card>, discard: Card)
    ensures multiset(hand + [Joker, discard]) == multiset(hand + [discard]) + Jokers(1)
    ensures multiset(hand + [discard]) == multiset(hand + [discard]) + Jokers(0)
  {
    assert multiset(hand + [discard]) == multiset(hand) + multiset{discard};
    assert multiset(hand + [Joker, discard]) == multiset(hand) + multiset{Joker, discard};
    assert Jokers(0) == multiset{} && Jokers(1) == multiset{Joker};
  }

  lemma NotReclaimable(hand: seq<Card>, discard: Card, table: seq<Comp>, hasOpened: bool, ci: nat, ji: nat)
    requires ci < |table| && ji < |table[ci].cards| && table[ci].cards[ji].Natural?
    ensures forall k: nat :: k < |hand| ==> NoReclaimPlay(hand, discard, table, hasOpened, ci, ji, k)
    ensures NoDiscardReclaim(hand, discard, table, hasOpened, ci, ji)
  {
  }

  method TryComposition(hand: seq<Card>, discard: Card, table: seq<Comp>, hasOpened: bool, ci: nat)
    returns (ok: bool, ghost s: SearchState, ghost q: SearchPlay)
    requires AllOk(table) && |hand| + 2 <= MAX_SEARCH_HAND && ci < |table|
    ensures ok ==>
              Accepted(s, q, q.reclaims) && BaseOf(s, hand + [discard], q) && s.table == table &&
              s.hasOpened == hasOpened && OneAtOnce(table, q.reclaims) && q.reclaims != []
    ensures !ok ==> forall ji: nat, k: nat :: ji < |table[ci].cards| && k < |hand| ==>
                      NoReclaimPlay(hand, discard, table, hasOpened, ci, ji, k)
    ensures !ok ==> forall ji: nat :: ji < |table[ci].cards| ==>
                      NoDiscardReclaim(hand, discard, table, hasOpened, ci, ji)
  {
    hide Accepted, NoReclaimPlay, NoDiscardReclaim, CompOk, AllOk, BaseOf, OneAtOnce;
    ok, s, q := false, BaseState(hand, discard, table, hasOpened), StartOf(None);
    for jokerIndex := 0 to |table[ci].cards|
      invariant !ok
      invariant forall ji: nat, k: nat :: ji < jokerIndex && k < |hand| ==>
                  NoReclaimPlay(hand, discard, table, hasOpened, ci, ji, k)
      invariant forall ji: nat :: ji < jokerIndex ==> NoDiscardReclaim(hand, discard, table, hasOpened, ci, ji)
    {
      if table[ci].cards[jokerIndex].Natural? {
        NotReclaimable(hand, discard, table, hasOpened, ci, jokerIndex);
        continue;
      }
      for cardIndex := 0 to |hand| + 1
        invariant !ok
        invariant forall k: nat :: k < cardIndex && k < |hand| ==>
                    NoReclaimPlay(hand, discard, table, hasOpened, ci, jokerIndex, k)
        invariant cardIndex > |hand| ==> NoDiscardReclaim(hand, discard, table, hasOpened, ci, jokerIndex)
      {
        ok, s, q := TryReclaim(hand, discard, table, hasOpened, ci, jokerIndex, cardIndex);
        if ok {
          return;
        }
      }
    }
  }

  /** No single composition, no single addition and no single reclaim uses the discard, the first two with or
      without one reclaim from the hand made before. */
  ghost predicate NothingUses(hand: seq<Card>, discard: Card, table: seq<Comp>, hasOpened: bool) {
    var s := BaseState(hand, discard, table, hasOpened);
    && NoDirectPlay(s, StartOf(None), Pow2(|hand|), Pow2(|hand|))
    && NoAdditionPlay(s, StartOf(None), Pow2(|hand|), Pow2(|hand|))
    && (!hasOpened ==> NoOpeningPlay(s, StartOf(None), Pow2(|hand|), Pow2(|hand|)))
    && (forall ci: nat, ji: nat, k: nat :: ci < |table| && ji < |table[ci].cards| && k < |hand| ==>
          NoReclaimPlay(hand, discard, table, hasOpened, ci, ji, k))
    && (forall ci: nat, ji: nat :: ci < |table| && ji < |table[ci].cards| ==>
          NoDiscardReclaim(hand, discard, table, hasOpened, ci, ji))
  }

  /** Whether the top of the discard pile may be taken; on success `q` is a play that uses it. */
  method CanTakeDiscardNow(hand: seq<Card>, discardPile: seq<Card>, table: seq<Comp>, hasOpened: bool)
    returns (ok: bool, ghost s: SearchState, ghost q: SearchPlay)
    requires AllOk(table) && |hand| + 2 <= MAX_SEARCH_HAND
    ensures ok ==> discardPile != [] && Accepted(s, q, q.reclaims) && BaseOf(s, hand + [discardPile[0]], q) &&
                   s.table == table && s.hasOpened == hasOpened && OneAtOnce(table, q.reclaims)
    ensures ok && q.reclaims == [] ==> s == BaseState(hand, discardPile[0], table, hasOpened)
    ensures !ok && discardPile != [] ==> NothingUses(hand, discardPile[0], table, hasOpened)
  {
    hide Accepted, NoDirectPlay, NoAdditionPlay, NoOpeningPlay, NoReclaimPlay, NoDiscardReclaim, CompOk, AllOk,
         BaseOf, Pow2;
    ok, s, q := false, BaseState(hand, Joker, table, hasOpened), StartOf(None);
    if |discardPile| == 0 {
      return;
    }
    var discard := discardPile[0];
    s := BaseState(hand, discard, table, hasOpened);
    var base := BaseState(hand, discard, table, hasOpened);
    ok, q := SearchFrom(base, None, 0);
    if ok {
      hide Reclaimable;
      AcceptedIsBased(s, q, [], hand, discard);
      return;
    }
    for ci := 0 to |table|
      invariant !ok
      invariant forall c: nat, ji: nat, k: nat :: c < ci && ji < |table[c].cards| && k < |hand| ==>
                  NoReclaimPlay(hand, discard, table, hasOpened, c, ji, k)
      invariant forall c: nat, ji: nat :: c < ci && ji < |table[c].cards| ==>
                  NoDiscardReclaim(hand, discard, table, hasOpened, c, ji)
    {
      ok, s, q := TryComposition(hand, discard, table, hasOpened, ci);
      if ok {
        return;
      }
    }
  }
}
