/** What the discard search accepts, and why the executor carries it out. */
module SearchPlays {
  import opened Cards
  import opened RunSpec
  import opened RunLayout
  import opened Compositions
  import opened Piles
  import opened TablePlay
  import opened PlayedCards
  import opened Masks

  datatype SelectedAddition = SelectedAddition(compositionIndex: int, insertIndex: Option<int>, mask: nat)

  /** The search's base state; with a synthetic reclaim the hand already holds the table joker. */
  datatype SearchState = SearchState(hand: seq<Card>, table: seq<Comp>, hasOpened: bool, syntheticReclaims: nat)

  /** Masks select cards of the base hand; `used` is the union of all masks. */
  datatype SearchPlay = SearchPlay(masks: seq<nat>, variants: seq<Variant>, additions: seq<SelectedAddition>,
                                   reclaims: seq<JokerReclaim>, used: nat)

  function AdditionOf(hand: seq<Card>, a: SelectedAddition): Addition {
    Addition(a.compositionIndex, a.insertIndex, MaskCards(hand, a.mask))
  }

  function AdditionsOf(hand: seq<Card>, additions: seq<SelectedAddition>): (r: seq<Addition>)
    ensures |r| == |additions| && forall i :: 0 <= i < |r| ==> r[i] == AdditionOf(hand, additions[i])
  {
    seq(|additions|, i requires 0 <= i < |additions| => AdditionOf(hand, additions[i]))
  }

  ghost predicate MasksValid(hand: seq<Card>, masks: seq<nat>, variants: seq<Variant>) {
    |masks| == |variants| && forall i :: 0 <= i < |masks| ==> ValidCards(variants[i], MaskCards(hand, masks[i]))
  }

  ghost function MaskPoints(hand: seq<Card>, masks: seq<nat>, variants: seq<Variant>): int
    requires MasksValid(hand, masks, variants)
  {
    if masks == [] then 0
    else
      var k := |masks| - 1;
      MaskPoints(hand, masks[..k], variants[..k]) + Points(variants[k], MaskCards(hand, masks[k]))
  }

  ghost predicate EnoughToOpen(s: SearchState, p: SearchPlay, tablePoints: int)
    requires MasksValid(s.hand, p.masks, p.variants)
  {
    s.hasOpened || (p.masks != [] && MaskPoints(s.hand, p.masks, p.variants) + tablePoints >= OPENING_POINTS)
  }

  /** The conditions validateTablePlay checks. */
  ghost predicate ValidPlay(s: SearchState, p: SearchPlay) {
    && (p.masks != [] || p.additions != [] || p.reclaims != [])
    && MasksValid(s.hand, p.masks, p.variants)
    && (var m := TableMoves(s.table, AdditionsOf(s.hand, p.additions), p.reclaims);
        m.Some? && EnoughToOpen(s, p, m.value.points))
    && |s.hand| - OnesCount(p.used) + |p.reclaims| - s.syntheticReclaims != 0
  }

  // ---------------------------------------------------------------- what the search keeps

  ghost function MaskSum(hand: seq<Card>, masks: seq<nat>): multiset<Card> {
    if masks == [] then multiset{}
    else MaskSum(hand, masks[..|masks| - 1]) + multiset(MaskCards(hand, masks[|masks| - 1]))
  }

  ghost function PlayCards(hand: seq<Card>, p: SearchPlay): multiset<Card> {
    MaskSum(hand, p.masks) + AdditionCards(AdditionsOf(hand, p.additions)) + ReplacementCards(p.reclaims)
  }

  /** The union of the masks selects exactly the cards of the play; the last card of the hand is
      the discard and, once `discardUsed`, among them. */
  ghost predicate Covers(s: SearchState, p: SearchPlay, discardUsed: bool) {
    && s.hand != [] && p.used < Pow2(|s.hand|)
    && multiset(MaskCards(s.hand, p.used)) == PlayCards(s.hand, p)
    && (discardUsed ==> Bit(p.used, |s.hand| - 1))
  }

  lemma NextUnion(hand: seq<Card>, used: nat, mask: nat)
    requires And(used, mask) == 0 && used < Pow2(|hand|) && mask < Pow2(|hand|)
    ensures Or(used, mask) < Pow2(|hand|)
    ensures multiset(MaskCards(hand, Or(used, mask))) ==
            multiset(MaskCards(hand, used)) + multiset(MaskCards(hand, mask))
    ensures OnesCount(Or(used, mask)) == OnesCount(used) + OnesCount(mask)
    ensures hand != [] ==> (Bit(Or(used, mask), |hand| - 1) <==> Bit(used, |hand| - 1) || Bit(mask, |hand| - 1))
  {
    OrBelow(used, mask, |hand|);
    DisjointMasksAdd(hand, used, mask);
    DisjointOnes(used, mask);
    if hand != [] {
      OrBits(used, mask, |hand| - 1);
    }
  }

  /** The play with one more composition. */
  function WithComposition(p: SearchPlay, mask: nat, variant: Variant): SearchPlay {
    p.(masks := p.masks + [mask], variants := p.variants + [variant], used := Or(p.used, mask))
  }

  function WithAddition(p: SearchPlay, compositionIndex: int, insertIndex: int, mask: nat): SearchPlay {
    p.(additions := p.additions + [SelectedAddition(compositionIndex, Some(insertIndex), mask)],
       used := Or(p.used, mask))
  }

  lemma MaskSumSnoc(hand: seq<Card>, masks: seq<nat>, mask: nat)
    ensures MaskSum(hand, masks + [mask]) == MaskSum(hand, masks) + multiset(MaskCards(hand, mask))
  {
    hide MaskCards;
    assert (masks + [mask])[..|masks + [mask]| - 1] == masks;
  }

  lemma AdditionCardsSnoc(hand: seq<Card>, additions: seq<SelectedAddition>, a: SelectedAddition)
    ensures AdditionCards(AdditionsOf(hand, additions + [a])) ==
            AdditionCards(AdditionsOf(hand, additions)) + multiset(MaskCards(hand, a.mask))
  {
    hide MaskCards;
    var after := AdditionsOf(hand, additions + [a]);
    assert after[..|after| - 1] == AdditionsOf(hand, additions);
  }

  lemma CoversComposition(s: SearchState, p: SearchPlay, mask: nat, variant: Variant, discardUsed: bool)
    requires Covers(s, p, discardUsed) && And(p.used, mask) == 0 && mask < Pow2(|s.hand|)
    ensures Covers(s, WithComposition(p, mask, variant), discardUsed || Bit(mask, |s.hand| - 1))
  {
    hide MaskCards, Pow2, Bit, And, Or, MaskSum, AdditionCards, AdditionsOf, ReplacementCards;
    NextUnion(s.hand, p.used, mask);
    MaskSumSnoc(s.hand, p.masks, mask);
    assert Or(p.used, mask) == WithComposition(p, mask, variant).used;
  }

  lemma CoversAddition(s: SearchState, p: SearchPlay, compositionIndex: int, insertIndex: int, mask: nat,
                       discardUsed: bool)
    requires Covers(s, p, discardUsed) && And(p.used, mask) == 0 && mask < Pow2(|s.hand|)
    ensures Covers(s, WithAddition(p, compositionIndex, insertIndex, mask), discardUsed || Bit(mask, |s.hand| - 1))
  {
    hide MaskCards, Pow2, Bit, And, Or, MaskSum, AdditionCards, AdditionsOf, ReplacementCards;
    NextUnion(s.hand, p.used, mask);
    AdditionCardsSnoc(s.hand, p.additions, SelectedAddition(compositionIndex, Some(insertIndex), mask));
  }

  lemma CoversNothing(s: SearchState)
    requires s.hand != []
    ensures Covers(s, SearchPlay([], [], [], [], 0), false)
  {
    NoCards(s.hand);
  }

  lemma {:induction false} NoCards(hand: seq<Card>)
    ensures MaskCards(hand, 0) == []
  {
    if hand != [] {
      NoCards(hand[..|hand| - 1]);
      ZeroBits(|hand| - 1);
    }
  }

  lemma CoversReclaim(s: SearchState, r: JokerReclaim, i: nat)
    requires i < |s.hand| && s.hand[i] == r.replacement
    ensures Covers(s, SearchPlay([], [], [], [r], Pow2(i)), i == |s.hand| - 1)
  {
    MaskCardsSingle(s.hand, i);
    Pow2Grows(i, |s.hand|);
    Pow2Bits(i, |s.hand| - 1);
    assert [r][..0] == [];
    assert ReplacementCards([r]) == multiset{r.replacement};
  }

  // ---------------------------------------------------------------- arranging the compositions

  /** A composition as a client submits it: built in an order the engine recognises. */
  ghost predicate Submitted(c: Comp) {
    MakeComp(c.cards, c.variant, true) == Some(c)
  }

  lemma Arrange(cards: seq<Card>, variant: Variant) returns (c: Comp)
    requires ValidCards(variant, cards)
    ensures Submitted(c) && CompOk(c) && LaidComp(c) == Some(c)
    ensures c.variant == variant && multiset(c.cards) == multiset(cards) && CompPoints(c) == Points(variant, cards)
  {
    var ordered := cards;
    if variant == Run {
      ordered := SomeOrderIsRecognised(cards);
      BestRunOrderLaysOut(ordered);
    }
    c := MakeComp(ordered, variant, true).value;
    MakeCompOk(ordered, variant, true);
    PointsIgnoreOrder(variant, cards, c.cards);
  }

  ghost predicate Arranges(hand: seq<Card>, masks: seq<nat>, variants: seq<Variant>, comps: seq<Comp>) {
    && |comps| == |masks| == |variants|
    && forall i :: 0 <= i < |comps| ==>
         Submitted(comps[i]) && CompOk(comps[i]) && comps[i].variant == variants[i] &&
         multiset(comps[i].cards) == multiset(MaskCards(hand, masks[i]))
  }

  lemma LaysOne(comps: seq<Comp>, c: Comp)
    requires LayComps(comps).Some? && LaidComp(c) == Some(c)
    ensures var l := LayComps(comps).value;
            LayComps(comps + [c]) == Some(Laid(l.comps + [c], l.played + c.cards, l.points + CompPoints(c)))
  {
    hide LaidComp, CompPoints;
    assert (comps + [c])[..|comps + [c]| - 1] == comps;
  }

  /** The compositions are laid as they stand, and score and take what the masks say. */
  ghost predicate LaidAs(hand: seq<Card>, masks: seq<nat>, variants: seq<Variant>, comps: seq<Comp>)
    requires MasksValid(hand, masks, variants)
  {
    var l := LayComps(comps);
    l.Some? && l.value.comps == comps && l.value.points == MaskPoints(hand, masks, variants) &&
    multiset(l.value.played) == MaskSum(hand, masks)
  }

  lemma LaidAsSnoc(hand: seq<Card>, masks: seq<nat>, variants: seq<Variant>, comps: seq<Comp>, c: Comp)
    requires MasksValid(hand, masks, variants) && masks != []
    requires var k := |masks| - 1;
             LaidAs(hand, masks[..k], variants[..k], comps) && LaidComp(c) == Some(c) &&
             multiset(c.cards) == multiset(MaskCards(hand, masks[k])) &&
             CompPoints(c) == Points(variants[k], MaskCards(hand, masks[k]))
    ensures LaidAs(hand, masks, variants, comps + [c])
  {
    hide MaskCards, ValidCards, Points, LaidComp, CompPoints, LayComps;
    LaysOne(comps, c);
    var played := LayComps(comps).value.played;
    assert multiset(played + c.cards) == multiset(played) + multiset(c.cards);
  }

  /** Every selection of valid masks can be submitted in recognised order, for the same points. */
  lemma {:induction false} ArrangeAll(hand: seq<Card>, masks: seq<nat>,
                                      variants: seq<Variant>) returns (comps: seq<Comp>)
    requires MasksValid(hand, masks, variants)
    ensures Arranges(hand, masks, variants, comps) && LaidAs(hand, masks, variants, comps)
  {
    hide Submitted, CompOk, LaidComp, CompPoints, ValidCards, Points, MaskCards;
    comps := [];
    if masks != [] {
      var k := |masks| - 1;
      var front := ArrangeAll(hand, masks[..k], variants[..k]);
      var c := Arrange(MaskCards(hand, masks[k]), variants[k]);
      LaidAsSnoc(hand, masks, variants, front, c);
      comps := front + [c];
    }
  }

  // ---------------------------------------------------------------- accepted plays are carried out

  ghost function Jokers(n: nat): (m: multiset<Card>)
    ensures m[Joker] == n && forall c :: c != Joker ==> m[c] == 0
  {
    multiset{}[Joker := n]
  }

  /** Some joker of the table may be exchanged at once for a card of the hand. */
  ghost predicate Reclaimable(table: seq<Comp>, hand: seq<Card>) {
    exists ci, ji, k :: 0 <= ci < |table| && 0 <= k < |hand| && CanReclaimJoker(table[ci], ji, hand[k])
  }

  /** The base hand is the real hand, drawn discard last, plus the jokers already counted as reclaimed; one is
      counted only if the rest of the hand can reclaim it. */
  ghost predicate BaseOf(s: SearchState, realHand: seq<Card>, p: SearchPlay) {
    && multiset(s.hand) == multiset(realHand) + Jokers(s.syntheticReclaims) && s.syntheticReclaims <= |p.reclaims|
    && s.hand != [] && realHand != [] && s.hand[|s.hand| - 1] == realHand[|realHand| - 1]
    && (s.syntheticReclaims > 0 ==> Reclaimable(s.table, realHand[..|realHand| - 1]))
  }

  lemma JokersOnly(reclaimed: seq<Card>)
    requires AllJokerCards(reclaimed)
    ensures multiset(reclaimed) == Jokers(|reclaimed|)
  {
    var m := multiset(reclaimed);
    assert forall c: Card :: c.Natural? ==> c !in m;
    var rest := m[Joker := 0];
    assert rest == multiset{};
    assert |rest| == |m| - m[Joker];
  }

  lemma EnoughCards(s: SearchState, realHand: seq<Card>, reclaimed: seq<Card>, played: seq<Card>, used: nat)
    requires multiset(s.hand) == multiset(realHand) + Jokers(s.syntheticReclaims) && s.syntheticReclaims <= |reclaimed|
    requires AllJokerCards(reclaimed)
    requires multiset(played) == multiset(MaskCards(s.hand, used)) && used < Pow2(|s.hand|)
    ensures multiset(played) <= multiset(realHand + reclaimed)
    ensures |realHand + reclaimed| - |played| == |s.hand| - OnesCount(used) + |reclaimed| - s.syntheticReclaims
  {
    MaskCardsSubset(s.hand, used);
    MaskCardsCount(s.hand, used);
    SameMultisetSameLength(played, MaskCards(s.hand, used));
    JokersOnly(reclaimed);
    assert multiset(realHand + reclaimed) == multiset(realHand) + Jokers(|reclaimed|);
    assert Jokers(s.syntheticReclaims) <= Jokers(|reclaimed|);
    assert |Jokers(s.syntheticReclaims)| == s.syntheticReclaims;
    assert |multiset(s.hand)| == |multiset(realHand)| + s.syntheticReclaims;
  }

  /** The cards of some new composition are all really held. */
  ghost predicate OpensWithoutJoker(s: SearchState, p: SearchPlay, realHand: seq<Card>) {
    exists i :: 0 <= i < |p.masks| && multiset(MaskCards(s.hand, p.masks[i])) <= multiset(realHand)
  }

  lemma NamedIsPlayed(hand: seq<Card>, p: SearchPlay, comps: seq<Comp>)
    requires Arranges(hand, p.masks, p.variants, comps)
    ensures Named(comps, AdditionsOf(hand, p.additions), p.reclaims) == PlayCards(hand, p)
  {
    ArrangedCards(hand, p.masks, p.variants, comps);
  }

  lemma ArrangesFront(hand: seq<Card>, masks: seq<nat>, variants: seq<Variant>, comps: seq<Comp>)
    requires Arranges(hand, masks, variants, comps) && comps != []
    ensures var k := |comps| - 1;
            Arranges(hand, masks[..k], variants[..k],
                     comps[..k]) && multiset(comps[k].cards) == multiset(MaskCards(hand, masks[k]))
  {
    hide Submitted, CompOk, MaskCards;
  }

  lemma {:induction false} ArrangedCards(hand: seq<Card>, masks: seq<nat>, variants: seq<Variant>, comps: seq<Comp>)
    requires Arranges(hand, masks, variants, comps)
    ensures TableCards(comps) == MaskSum(hand, masks)
  {
    if comps != [] {
      ArrangesFront(hand, masks, variants, comps);
      hide Arranges, MaskCards;
      var k := |comps| - 1;
      ArrangedCards(hand, masks[..k], variants[..k], comps[..k]);
    }
  }

  ghost predicate Executes(r: Result<TableState, PlayError>, opens: bool) {
    if opens then r.Success? else r == Failure(InitialPlayRequiresOwnComp)
  }

  lemma OpensIff(s: SearchState, p: SearchPlay, realHand: seq<Card>, comps: seq<Comp>)
    requires Arranges(s.hand, p.masks, p.variants, comps)
    ensures OpensFromHand(realHand, comps) <==> OpensWithoutJoker(s, p, realHand)
  {
    hide Submitted, CompOk;
    if i :| 0 <= i < |comps| && multiset(comps[i].cards) <= multiset(realHand) {
      assert multiset(MaskCards(s.hand, p.masks[i])) <= multiset(realHand);
    }
    if i :| 0 <= i < |p.masks| && multiset(MaskCards(s.hand, p.masks[i])) <= multiset(realHand) {
      assert multiset(comps[i].cards) <= multiset(realHand);
    }
  }

  /** A play the search accepts uses the discard, and the executor carries it out on the real hand
      exactly when the player has opened or some new composition needs no reclaimed joker. */
  lemma AcceptedPlayExecutes(s: SearchState, p: SearchPlay, realHand: seq<Card>) returns (comps: seq<Comp>)
    requires AllOk(s.table) && ValidPlay(s, p) && Covers(s, p, true) && BaseOf(s, realHand, p)
    ensures Arranges(s.hand, p.masks, p.variants, comps) && AllOk(comps)
    ensures UsesCard(comps, AdditionsOf(s.hand, p.additions), p.reclaims, realHand[|realHand| - 1])
    ensures Executes(ApplyTablePlay(TableState(realHand, s.table, s.hasOpened), comps, AdditionsOf(s.hand, p.additions),
                                    p.reclaims),
                     s.hasOpened || OpensWithoutJoker(s, p, realHand))
  {
    hide LayComps, TableMoves, MaskPoints, MaskSum, MaskCards, Submitted, CompOk, RemoveEach, OnesCount, UsesCard,
         OpensFromHand, OpensWithoutJoker, TableCards, AdditionsOf, AdditionCards, ReplacementCards, Jokers;
    comps := ArrangeAll(s.hand, p.masks, p.variants);
    var additions := AdditionsOf(s.hand, p.additions);
    OpensIff(s, p, realHand, comps);
    OnTableKeeps(s.table, comps, additions, p.reclaims);
    PlayTakesNamed(s.table, comps, additions, p.reclaims);
    NamedIsPlayed(s.hand, p, comps);
    var o := OnTable(s.table, comps, additions, p.reclaims).value;
    EnoughCards(s, realHand, o.reclaimed, o.played, p.used);
    RemoveEachSubtracts(realHand + o.reclaimed, o.played);
    UsesCardIff(comps, additions, p.reclaims, realHand[|realHand| - 1]);
    BitSelects(s.hand, p.used, |s.hand| - 1);
  }

  /** A hand that can reclaim nothing at once is searched as it is. */
  lemma NothingCounted(s: SearchState, p: SearchPlay, realHand: seq<Card>)
    requires BaseOf(s, realHand, p) && !Reclaimable(s.table, realHand[..|realHand| - 1])
    ensures multiset(s.hand) == multiset(realHand)
  {
    assert Jokers(0) == multiset{};
  }

  /** With no joker counted in advance every selected card is really held. */
  lemma PlainPlayOpens(s: SearchState, p: SearchPlay, realHand: seq<Card>)
    requires ValidPlay(s, p) && multiset(s.hand) == multiset(realHand)
    ensures s.hasOpened || OpensWithoutJoker(s, p, realHand)
  {
    if !s.hasOpened {
      MaskCardsSubset(s.hand, p.masks[0]);
    }
  }
}
