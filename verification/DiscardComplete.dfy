/** For a player who has opened the discard search is complete: it says yes exactly when some play that makes at
    most one reclaim, and that at once, uses the discard, whatever else the play lays and adds. */
module DiscardComplete {
  import opened Cards
  import opened Compositions
  import opened JokerMeaning
  import opened TablePlay
  import opened PlayedCards
  import opened Masks
  import opened SearchPlays
  import opened DiscardSearch
  import opened GameInvariants
  import opened PlayOutcomes

  // ---------------------------------------------------------------- choosing cards by a mask

  lemma BitBelow(mask: nat, n: nat)
    requires mask < Pow2(n)
    ensures !Bit(mask, n) && Or(mask, Pow2(n)) < Pow2(n + 1)
    ensures forall i: nat :: i < n ==> (Bit(Or(mask, Pow2(n)), i) <==> Bit(mask, i))
    ensures Bit(Or(mask, Pow2(n)), n)
  {
    HighBitsClear(mask, n, n);
    Pow2Grows(n, n + 1);
    OrBelow(mask, Pow2(n), n + 1);
    forall i: nat | i <= n
      ensures Bit(Or(mask, Pow2(n)), i) <==> Bit(mask, i) || i == n
    {
      OrBits(mask, Pow2(n), i);
      Pow2Bits(n, i);
    }
  }

  /** Masks that agree below the length select the same cards. */
  lemma {:induction false} SameBits(cards: seq<Card>, a: nat, b: nat)
    requires forall i: nat :: i < |cards| ==> (Bit(a, i) <==> Bit(b, i))
    ensures MaskCards(cards, a) == MaskCards(cards, b)
  {
    if cards != [] {
      SameBits(cards[..|cards| - 1], a, b);
    }
  }

  lemma LastOf(cards: seq<Card>)
    requires cards != []
    ensures multiset(cards) == multiset(cards[..|cards| - 1]) + multiset{cards[|cards| - 1]}
  {
    assert cards == cards[..|cards| - 1] + [cards[|cards| - 1]];
  }

  /** The mask with the last card chosen as well. */
  lemma ChooseLast(cards: seq<Card>, mask: nat)
    requires cards != [] && mask < Pow2(|cards| - 1)
    ensures var m := Or(mask, Pow2(|cards| - 1));
            m < Pow2(|cards|) && Bit(m, |cards| - 1) &&
            multiset(MaskCards(cards, m)) ==
            multiset(MaskCards(cards[..|cards| - 1], mask)) + multiset{cards[|cards| - 1]}
  {
    hide Or, Bit, Pow2;
    var n := |cards| - 1;
    BitBelow(mask, n);
    SameBits(cards[..n], Or(mask, Pow2(n)), mask);
  }

  /** Some mask selects exactly the wanted cards. */
  lemma {:induction false} Choose(cards: seq<Card>, wanted: multiset<Card>) returns (mask: nat)
    requires wanted <= multiset(cards)
    ensures mask < Pow2(|cards|) && multiset(MaskCards(cards, mask)) == wanted
  {
    hide Or, Bit, And;
    if cards == [] {
      mask := 0;
    } else {
      var n := |cards| - 1;
      var last := cards[n];
      LastOf(cards);
      if last in wanted {
        var rest := Choose(cards[..n], wanted - multiset{last});
        ChooseLast(cards, rest);
        mask := Or(rest, Pow2(n));
      } else {
        mask := Choose(cards[..n], wanted);
        NotLast(cards, mask);
      }
    }
  }

  lemma NotLast(cards: seq<Card>, mask: nat)
    requires cards != [] && mask < Pow2(|cards| - 1)
    ensures mask < Pow2(|cards|) && MaskCards(cards, mask) == MaskCards(cards[..|cards| - 1], mask)
  {
    var n := |cards| - 1;
    Pow2Grows(n, n + 1);
    HighBitsClear(mask, n, n);
  }

  lemma WithoutLast(wanted: multiset<Card>, c: Card, front: multiset<Card>, last: Card)
    requires wanted + multiset{c} <= front + multiset{last} && c in front
    ensures last in wanted ==> wanted - multiset{last} + multiset{c} <= front
    ensures last !in wanted ==> wanted + multiset{c} <= front
  {
    var a, b := wanted + multiset{c}, front + multiset{last};
    if last in wanted {
      var rest := wanted - multiset{last} + multiset{c};
      forall x: Card
        ensures rest[x] <= front[x]
      {
        assert a[x] <= b[x];
      }
    } else {
      forall x: Card
        ensures a[x] <= front[x]
      {
        assert a[x] <= b[x];
      }
    }
  }

  lemma WithoutIt(wanted: multiset<Card>, front: multiset<Card>, last: Card)
    requires wanted + multiset{last} <= front + multiset{last}
    ensures wanted <= front
  {
    var a, b := wanted + multiset{last}, front + multiset{last};
    forall x: Card
      ensures wanted[x] <= front[x]
    {
      assert a[x] <= b[x];
    }
  }

  /** Likewise without touching the card at `k`. */
  lemma {:induction false} ChooseBut(cards: seq<Card>, wanted: multiset<Card>, k: nat) returns (mask: nat)
    requires k < |cards| && wanted + multiset{cards[k]} <= multiset(cards)
    ensures mask < Pow2(|cards|) && multiset(MaskCards(cards, mask)) == wanted && !Bit(mask, k)
  {
    hide Or, And, MaskCards, Bit, Pow2;
    var n := |cards| - 1;
    var front, last := cards[..n], cards[n];
    LastOf(cards);
    if k == n {
      WithoutIt(wanted, multiset(front), last);
      mask := Choose(front, wanted);
      NotLast(cards, mask);
      HighBitsClear(mask, n, n);
    } else {
      assert front[k] == cards[k] && front[k] in multiset(front);
      WithoutLast(wanted, front[k], multiset(front), last);
      if last in wanted {
        var rest := ChooseBut(front, wanted - multiset{last}, k);
        ChooseLast(cards, rest);
        mask := Or(rest, Pow2(n));
        BitBelow(rest, n);
        assert wanted - multiset{last} + multiset{last} == wanted;
      } else {
        mask := ChooseBut(front, wanted, k);
        NotLast(cards, mask);
      }
    }
  }

  lemma NoBit(mask: nat, k: nat)
    requires !Bit(mask, k)
    ensures And(Pow2(k), mask) == 0
  {
    if And(Pow2(k), mask) != 0 {
      var i := SomeBit(And(Pow2(k), mask));
      AndBits(Pow2(k), mask, i);
      Pow2Bits(k, i);
      assert false;
    }
  }

  // ---------------------------------------------------------------- plays on cards

  /** The play uses the discard, makes at most one reclaim and that at once, and the executor carries it out for
      a player who has opened and holds the hand and the discard. */
  ghost predicate Uses(hand: seq<Card>, discard: Card, table: seq<Comp>, comps: seq<Comp>, additions: seq<Addition>,
                       reclaims: seq<JokerReclaim>) {
    && AllOk(comps) && OneAtOnce(table, reclaims) && UsesCard(comps, additions, reclaims, discard)
    && ApplyTablePlay(TableState(hand + [discard], table, true), comps, additions, reclaims).Success?
  }

  ghost predicate SomePlayUses(hand: seq<Card>, discard: Card, table: seq<Comp>) {
    exists comps, additions, reclaims :: Uses(hand, discard, table, comps, additions, reclaims)
  }

  /** What the search finds is such a play. */
  lemma FoundIsUse(hand: seq<Card>, discard: Card, s: SearchState, q: SearchPlay)
    requires AllOk(s.table) && Accepted(s, q, q.reclaims) && BaseOf(s, hand + [discard], q) && s.hasOpened
    requires OneAtOnce(s.table, q.reclaims)
    ensures SomePlayUses(hand, discard, s.table)
  {
    hide ValidPlay, CompOk, UsesCard, ApplyTablePlay, OneAtOnce;
    ValidOf(s, q);
    var comps := AcceptedPlayExecutes(s, q, hand + [discard]);
    assert Uses(hand, discard, s.table, comps, AdditionsOf(s.hand, q.additions), q.reclaims);
  }

  lemma ValidOf(s: SearchState, q: SearchPlay)
    requires Accepted(s, q, q.reclaims)
    ensures ValidPlay(s, q) && Covers(s, q, true)
  {
  }

  // ---------------------------------------------------------------- the state the search works on

  /** The cards the search may choose besides the discard. */
  function Choice(hand: seq<Card>, reclaims: seq<JokerReclaim>): seq<Card> {
    if reclaims == [] then hand else hand + [Joker]
  }

  function StateFor(hand: seq<Card>, discard: Card, table: seq<Comp>, reclaims: seq<JokerReclaim>): (s: SearchState)
    ensures s.hand == Choice(hand, reclaims) + [discard] && s.table == table && s.hasOpened
    ensures s.syntheticReclaims == if reclaims == [] then 0 else 1
  {
    if reclaims == [] then BaseState(hand, discard, table, true)
    else
      assert hand + [Joker, discard] == hand + [Joker] + [discard];
      SyntheticState(hand, discard, table, true)
  }

  function PlayFor(reclaims: seq<JokerReclaim>, k: nat): SearchPlay {
    SearchPlay([], [], [], reclaims, if reclaims == [] then 0 else Pow2(k))
  }

  /** The cards wanted can be had, and the card at `k` stays for the reclaim. */
  ghost predicate CanHave(hand: seq<Card>, discard: Card, reclaims: seq<JokerReclaim>, k: nat, wanted: multiset<Card>) {
    && discard in wanted && |reclaims| <= 1 && (reclaims != [] ==> k < |hand| && hand[k] == reclaims[0].replacement)
    && if reclaims == [] then wanted <= multiset(hand) + multiset{discard}
       else wanted + multiset{hand[k]} <= multiset(hand) + multiset{Joker} + multiset{discard}
  }

  lemma LessDiscard(wanted: multiset<Card>, c: Card, have: multiset<Card>, discard: Card)
    requires discard in wanted
    ensures wanted <= have + multiset{discard} ==> wanted - multiset{discard} <= have
    ensures wanted + multiset{c} <= have + multiset{discard} ==> wanted - multiset{discard} + multiset{c} <= have
  {
    var a, b, d := wanted + multiset{c}, have + multiset{discard}, wanted - multiset{discard} + multiset{c};
    if wanted <= b {
      var rest := wanted - multiset{discard};
      forall x: Card
        ensures rest[x] <= have[x]
      {
        assert wanted[x] <= b[x];
      }
    }
    if a <= b {
      forall x: Card
        ensures d[x] <= have[x]
      {
        assert a[x] <= b[x];
      }
    }
  }

  /** A mask with the discard selects them. */
  lemma SelectCards(hand: seq<Card>, discard: Card, reclaims: seq<JokerReclaim>, k: nat, wanted: multiset<Card>)
    returns (rest: nat)
    requires CanHave(hand, discard, reclaims, k, wanted)
    ensures var choice, used := Choice(hand, reclaims), PlayFor(reclaims, k).used;
            var mask := Or(rest, Pow2(|choice|));
            && rest < Pow2(|choice|) && multiset(MaskCards(choice + [discard], mask)) == wanted
            && And(used, mask) == 0 && OnesCount(rest) == |wanted| - 1
            && OnesCount(Or(used, mask)) == |wanted| + |reclaims|
  {
    hide Or, And, Bit, MaskCards, OnesCount, Pow2;
    var choice, used := Choice(hand, reclaims), PlayFor(reclaims, k).used;
    var n := |choice|;
    var cards := choice + [discard];
    assert cards[..n] == choice && cards[n] == discard;
    var c := if reclaims == [] then discard else hand[k];
    LessDiscard(wanted, c, multiset(choice), discard);
    if reclaims == [] {
      rest := Choose(choice, wanted - multiset{discard});
    } else {
      assert choice[k] == hand[k];
      rest := ChooseBut(choice, wanted - multiset{discard}, k);
    }
    ChooseLast(cards, rest);
    assert wanted - multiset{discard} + multiset{discard} == wanted;
    var mask := Or(rest, Pow2(n));
    MaskCardsCount(choice, rest);
    MaskCardsCount(cards, mask);
    assert |multiset(MaskCards(choice, rest))| == |MaskCards(choice, rest)|;
    assert |multiset(MaskCards(cards, mask))| == |MaskCards(cards, mask)|;
    if reclaims == [] {
      NothingUsed(mask);
    } else {
      BitBelow(rest, n);
      NoBit(mask, k);
      DisjointOnes(used, mask);
      OneBit(k);
    }
  }

  lemma NothingUsed(mask: nat)
    ensures And(0, mask) == 0 && Or(0, mask) == mask
  {
  }

  // ---------------------------------------------------------------- single moves are valid

  /** A reclaim made at once leaves nothing waiting, so only additions can fail. */
  lemma MovesAtOnce(table: seq<Comp>, additions: seq<Addition>, reclaims: seq<JokerReclaim>)
    requires AllOk(table) && OneAtOnce(table, reclaims)
    ensures ReclaimAll(table, reclaims).Some? && ReclaimAll(table, reclaims).value.deferred == []
    ensures var r := ReclaimAll(table, reclaims).value;
            TableMoves(table, additions, reclaims).Some? <==> AddAll(Adding(r.table, [], [], 0), additions).Some?
  {
    hide CompOk, ReclaimJoker, AddStep;
    if reclaims == [] {
      assert ReclaimAll(table, reclaims) == Some(Reclaiming(table, [], [], []));
    } else {
      assert reclaims == [reclaims[0]];
      OneReclaim(table, reclaims[0]);
      var r := reclaims[0];
      ReclaimSucceeds(table[r.compositionIndex], r.jokerIndex, r.replacement);
    }
    var start := Adding(ReclaimAll(table, reclaims).value.table, [], [], 0);
    NothingWaits(start, additions);
  }

  lemma {:induction false} NothingWaits(s: Adding, additions: seq<Addition>)
    requires s.deferred == []
    ensures AddAll(s, additions).Some? ==> AddAll(s, additions).value.deferred == []
  {
    hide WithInsertedCards, CompPoints;
    if additions != [] {
      NothingWaits(s, additions[..|additions| - 1]);
    }
  }

  /** The play leaves the hand a card. */
  ghost predicate LeavesCard(s: SearchState, p: SearchPlay) {
    |s.hand| - OnesCount(p.used) + |p.reclaims| - s.syntheticReclaims != 0
  }

  lemma CompositionIsValid(s: SearchState, p: SearchPlay, mask: nat, c: Comp)
    requires AllOk(s.table) && s.hasOpened && Bare(p) && OneAtOnce(s.table, p.reclaims)
    requires ValidCards(c.variant, c.cards) && multiset(MaskCards(s.hand, mask)) == multiset(c.cards)
    requires LeavesCard(s, WithComposition(p, mask, c.variant))
    ensures ValidPlay(s, WithComposition(p, mask, c.variant))
  {
    hide CompOk, MaskCards, TableMoves, ValidCards, Points;
    PointsIgnoreOrder(c.variant, c.cards, MaskCards(s.hand, mask));
    MovesAtOnce(s.table, [], p.reclaims);
    var q := WithComposition(p, mask, c.variant);
    assert q.masks == [mask] && q.variants == [c.variant] && AdditionsOf(s.hand, q.additions) == [];
  }

  /** All the cards added to one composition can be added to it in one go, at its front. */
  lemma AdditionIsValid(s: SearchState, p: SearchPlay, mask: nat, additions: seq<Addition>, x: nat)
    requires AllOk(s.table) && s.hasOpened && Bare(p) && OneAtOnce(s.table, p.reclaims) && x < |s.table|
    requires TableMoves(s.table, additions, p.reclaims).Some?
    requires multiset(MaskCards(s.hand, mask)) == AddedTo(additions, x) && MaskCards(s.hand, mask) != []
    requires LeavesCard(s, WithAddition(p, x, 0, mask))
    ensures ValidPlay(s, WithAddition(p, x, 0, mask))
  {
    hide CompOk, MaskCards, TableMoves, ValidCards, Points, ReclaimAll, AddStep, AddedTo;
    var cards := MaskCards(s.hand, mask);
    MovesAtOnce(s.table, additions, p.reclaims);
    ReclaimAllKeeps(s.table, p.reclaims);
    var r := ReclaimAll(s.table, p.reclaims).value;
    var start := Adding(r.table, [], [], 0);
    AdditionsAdd(start, additions, x);
    var after := AddAll(start, additions).value.table[x];
    OkHasPoints(after);
    InsertedCards(r.table[x].cards, 0, cards);
    PointsIgnoreOrder(after.variant, after.cards, Inserted(r.table[x].cards, 0, cards));
    var a := Addition(x, Some(0), cards);
    AdditionIff(start, a);
    OneAddition(start, a);
    MovesAtOnce(s.table, [a], p.reclaims);
    assert AdditionsOf(s.hand, WithAddition(p, x, 0, mask).additions) == [a];
  }

  lemma ReclaimIsValid(s: SearchState, p: SearchPlay)
    requires AllOk(s.table) && s.hasOpened && Bare(p) && OneAtOnce(s.table, p.reclaims) && p.reclaims != []
    requires LeavesCard(s, p)
    ensures ValidPlay(s, p)
  {
    hide CompOk, TableMoves;
    MovesAtOnce(s.table, [], p.reclaims);
    assert AdditionsOf(s.hand, p.additions) == [];
  }

  // ---------------------------------------------------------------- the search misses nothing

  /** What the failed search says of the state a play with these reclaims would be searched in. */
  lemma SearchedReclaim(hand: seq<Card>, discard: Card, table: seq<Comp>, reclaims: seq<JokerReclaim>)
    requires NothingUses(hand, discard, table, true) && OneAtOnce(table, reclaims)
    requires reclaims != [] && reclaims[0].replacement == discard
    ensures !ValidPlay(BaseState(hand, discard, table, true), SearchPlay([], [], [], reclaims, Pow2(|hand|)))
  {
    hide NoDirectPlay, NoAdditionPlay, Pow2, ValidPlay;
    var r := reclaims[0];
    assert reclaims == [r] && r == JokerReclaim(r.compositionIndex, r.jokerIndex, discard);
    assert NoDiscardReclaim(hand, discard, table, true, r.compositionIndex, r.jokerIndex);
  }

  lemma Searched(hand: seq<Card>, discard: Card, table: seq<Comp>, reclaims: seq<JokerReclaim>, k: nat)
    requires NothingUses(hand, discard, table, true) && OneAtOnce(table, reclaims)
    requires reclaims != [] ==> k < |hand| && hand[k] == reclaims[0].replacement
    ensures var s, p := StateFor(hand, discard, table, reclaims), PlayFor(reclaims, k);
            var bound := Pow2(|Choice(hand, reclaims)|);
            NoDirectPlay(s, p, bound, bound) && NoAdditionPlay(s, p, bound, bound)
  {
    hide NoDirectPlay, NoAdditionPlay, Pow2;
    if reclaims != [] {
      var r := reclaims[0];
      assert reclaims == [r] && r == JokerReclaim(r.compositionIndex, r.jokerIndex, hand[k]);
      assert NoReclaimPlay(hand, discard, table, true, r.compositionIndex, r.jokerIndex, k);
    }
  }

  lemma SearchedComposition(hand: seq<Card>, discard: Card, table: seq<Comp>, reclaims: seq<JokerReclaim>, k: nat,
                            rest: nat,
                            variant: Variant)
    requires NothingUses(hand, discard, table, true) && OneAtOnce(table, reclaims)
    requires reclaims != [] ==> k < |hand| && hand[k] == reclaims[0].replacement
    requires rest < Pow2(|Choice(hand, reclaims)|)
    ensures !DirectPlay(StateFor(hand, discard, table, reclaims), PlayFor(reclaims, k), Pow2(|Choice(hand, reclaims)|),
                        rest,
                        variant)
  {
    hide NothingUses, DirectPlay, OneAtOnce, NoAdditionPlay;
    Searched(hand, discard, table, reclaims, k);
  }

  lemma SearchedAddition(hand: seq<Card>, discard: Card, table: seq<Comp>, reclaims: seq<JokerReclaim>, k: nat,
                         rest: nat, x: int)
    requires NothingUses(hand, discard, table, true) && OneAtOnce(table, reclaims)
    requires reclaims != [] ==> k < |hand| && hand[k] == reclaims[0].replacement
    requires var p, bound := PlayFor(reclaims, k), Pow2(|Choice(hand, reclaims)|);
             rest < bound && And(p.used, Or(rest, bound)) == 0
    ensures var p, bound := PlayFor(reclaims, k), Pow2(|Choice(hand, reclaims)|);
            !ValidPlay(StateFor(hand, discard, table, reclaims), WithAddition(p, x, 0, Or(rest, bound)))
  {
    hide NothingUses, ValidPlay, OneAtOnce, NoDirectPlay, Or, And;
    Searched(hand, discard, table, reclaims, k);
    assert NoAddition(StateFor(hand, discard, table, reclaims), PlayFor(reclaims, k),
                      Or(rest, Pow2(|Choice(hand, reclaims)|)));
  }

  /** The cards of such a play, and the moves on the table. */
  lemma UseFacts(hand: seq<Card>, discard: Card, table: seq<Comp>, comps: seq<Comp>, additions: seq<Addition>,
                 reclaims: seq<JokerReclaim>)
    requires AllOk(table) && Uses(hand, discard, table, comps, additions, reclaims)
    ensures TableMoves(table, additions, reclaims).Some?
    ensures var named := Named(comps, additions, reclaims);
            discard in named && named <= multiset(hand) + multiset{discard} + Jokers(|reclaims|) &&
            |named| < |hand| + 1 + |reclaims|
  {
    hide CompOk, TableMoves, Layable, OneAtOnce, UsesCard, ApplyTablePlay, Named;
    var s := TableState(hand + [discard], table, true);
    PlayAnswer(s, comps, additions, reclaims);
    UsesCardIff(comps, additions, reclaims, discard);
    var named, held := Named(comps, additions, reclaims), InHand(s, reclaims);
    assert held == multiset(hand) + multiset{discard} + Jokers(|reclaims|);
    assert |Jokers(|reclaims|)| == |reclaims|;
    assert |held| == |hand| + 1 + |reclaims|;
    assert |held - named| > 0;
  }

  /** The reclaim is made by a card of the hand, or by the discard itself. */
  lemma ReclaimingCard(hand: seq<Card>, discard: Card, table: seq<Comp>, reclaims: seq<JokerReclaim>,
                       named: multiset<Card>)
    returns (k: nat)
    requires OneAtOnce(table, reclaims) && reclaims != [] && reclaims[0].replacement != discard
    requires ReplacementCards(reclaims) <= named && named <= multiset(hand) + multiset{discard} + Jokers(|reclaims|)
    ensures k < |hand| && hand[k] == reclaims[0].replacement && ReplacementCards(reclaims) == multiset{hand[k]}
  {
    var r := reclaims[0];
    assert reclaims == [r] && [r][..0] == [];
    assert ReplacementCards(reclaims) == multiset{r.replacement};
    assert r.replacement in named;
    assert r.replacement in multiset(hand);
    k :| 0 <= k < |hand| && hand[k] == r.replacement;
  }

  /** Part of the named cards, with the reclaim's replacement beside it. */
  lemma PartCanBeHad(hand: seq<Card>, discard: Card, reclaims: seq<JokerReclaim>, k: nat, part: multiset<Card>,
                     named: multiset<Card>)
    requires discard in part && |reclaims| <= 1
    requires reclaims != [] ==> k < |hand| && hand[k] == reclaims[0].replacement && part + multiset{hand[k]} <= named
    requires part <= named && named <= multiset(hand) + multiset{discard} + Jokers(|reclaims|)
    ensures CanHave(hand, discard, reclaims, k, part)
  {
    if reclaims == [] {
      assert multiset(hand) + multiset{discard} + Jokers(0) == multiset(hand) + multiset{discard};
    } else {
      assert Jokers(1) == multiset{Joker};
      assert multiset(hand) + multiset{discard} + Jokers(1) == multiset(hand) + multiset{Joker} + multiset{discard};
    }
  }

  lemma LeavesIt(s: SearchState, p: SearchPlay, reclaims: seq<JokerReclaim>, hand: seq<Card>, size: nat)
    requires |s.hand| == |hand| + 1 + s.syntheticReclaims && s.syntheticReclaims == |p.reclaims|
    requires OnesCount(p.used) == size + |p.reclaims| && size < |hand| + 1
    ensures LeavesCard(s, p)
  {
  }

  /** The composition the discard is laid in is a play the search tries. */
  lemma DiscardInComposition(hand: seq<Card>, discard: Card, table: seq<Comp>, reclaims: seq<JokerReclaim>, k: nat,
                             c: Comp)
    returns (rest: nat)
    requires AllOk(table) && OneAtOnce(table, reclaims) && CompOk(c)
    requires CanHave(hand, discard, reclaims, k, multiset(c.cards)) && |c.cards| < |hand| + 1
    ensures var bound := Pow2(|Choice(hand, reclaims)|);
            rest < bound &&
            DirectPlay(StateFor(hand, discard, table, reclaims), PlayFor(reclaims, k), bound, rest, c.variant)
  {
    hide CompOk, ValidCards, MaskCards, Or, And, OnesCount, OneAtOnce, ValidPlay;
    rest := SelectCards(hand, discard, reclaims, k, multiset(c.cards));
    var s, p, bound := StateFor(hand, discard, table, reclaims), PlayFor(reclaims, k), Pow2(|Choice(hand, reclaims)|);
    var mask := Or(rest, bound);
    OkHasPoints(c);
    ThreeCards(c);
    LeavesIt(s, WithComposition(p, mask, c.variant), reclaims, hand, |c.cards|);
    CompositionIsValid(s, p, mask, c);
  }

  lemma ThreeCards(c: Comp)
    requires CompOk(c)
    ensures |c.cards| >= 3 && |multiset(c.cards)| == |c.cards|
  {
  }

  /** All that is added where the discard is added is a play the search tries. */
  lemma DiscardInAddition(hand: seq<Card>, discard: Card, table: seq<Comp>, additions: seq<Addition>,
                          reclaims: seq<JokerReclaim>, k: nat, x: nat)
    returns (rest: nat)
    requires AllOk(table) && OneAtOnce(table, reclaims) && x < |table|
    requires TableMoves(table, additions, reclaims).Some?
    requires CanHave(hand, discard, reclaims, k, AddedTo(additions, x)) && |AddedTo(additions, x)| < |hand| + 1
    ensures var p, bound := PlayFor(reclaims, k), Pow2(|Choice(hand, reclaims)|);
            var mask := Or(rest, bound);
            rest < bound && And(p.used, mask) == 0 &&
            ValidPlay(StateFor(hand, discard, table, reclaims), WithAddition(p, x, 0, mask))
  {
    hide CompOk, MaskCards, Or, And, OnesCount, OneAtOnce, ValidPlay, AddedTo, TableMoves;
    var wanted := AddedTo(additions, x);
    rest := SelectCards(hand, discard, reclaims, k, wanted);
    var s, p, bound := StateFor(hand, discard, table, reclaims), PlayFor(reclaims, k), Pow2(|Choice(hand, reclaims)|);
    var mask := Or(rest, bound);
    assert discard in multiset(MaskCards(s.hand, mask));
    LeavesIt(s, WithAddition(p, x, 0, mask), reclaims, hand, |wanted|);
    AdditionIsValid(s, p, mask, additions, x);
  }

  lemma DiscardReclaims(hand: seq<Card>, discard: Card, table: seq<Comp>, reclaims: seq<JokerReclaim>)
    requires AllOk(table) && OneAtOnce(table, reclaims) && reclaims != [] && reclaims[0].replacement == discard
    ensures ValidPlay(BaseState(hand, discard, table, true), SearchPlay([], [], [], reclaims, Pow2(|hand|)))
  {
    hide CompOk, ValidPlay, OnesCount;
    OneBit(|hand|);
    ReclaimIsValid(BaseState(hand, discard, table, true), SearchPlay([], [], [], reclaims, Pow2(|hand|)));
  }

  lemma {:induction false} AddedIsNamed(additions: seq<Addition>, x: int)
    ensures AddedTo(additions, x) <= AdditionCards(additions)
  {
    if additions != [] {
      AddedIsNamed(additions[..|additions| - 1], x);
    }
  }

  lemma {:induction false} SomewhereAdded(additions: seq<Addition>, c: Card) returns (x: int)
    requires c in AdditionCards(additions)
    ensures c in AddedTo(additions, x) && exists i :: 0 <= i < |additions| && additions[i].compositionIndex == x
  {
    var k := |additions| - 1;
    if c in additions[k].cards {
      x := additions[k].compositionIndex;
    } else {
      x := SomewhereAdded(additions[..k], c);
      var i :| 0 <= i < |additions[..k]| && additions[..k][i].compositionIndex == x;
      assert additions[i].compositionIndex == x;
    }
  }

  lemma {:induction false} AddsInRange(s: Adding, additions: seq<Addition>, i: nat)
    requires AddAll(s, additions).Some? && i < |additions|
    ensures 0 <= additions[i].compositionIndex < |s.table|
    ensures |AddAll(s, additions).value.table| == |s.table|
  {
    hide WithInsertedCards, CompPoints;
    var k := |additions| - 1;
    if i < k {
      AddsInRange(s, additions[..k], i);
    } else if k > 0 {
      AddsInRange(s, additions[..k], 0);
    }
  }

  lemma AddedInRange(table: seq<Comp>, additions: seq<Addition>, reclaims: seq<JokerReclaim>, i: nat)
    requires AllOk(table) && TableMoves(table, additions, reclaims).Some? && i < |additions|
    ensures 0 <= additions[i].compositionIndex < |table|
  {
    hide CompOk, ReclaimAll, AddAll, FinishAll;
    ReclaimAllKeeps(table, reclaims);
    var r := ReclaimAll(table, reclaims).value;
    AddsInRange(Adding(r.table, r.deferred, [], 0), additions, i);
  }

  /** Parts of the named cards and their sizes. */
  lemma PartsOfNamed(comps: seq<Comp>, additions: seq<Addition>, reclaims: seq<JokerReclaim>, part: multiset<Card>)
    requires part <= TableCards(comps) || part <= AdditionCards(additions)
    ensures var named := Named(comps, additions, reclaims);
            part + ReplacementCards(reclaims) <= named && part <= named && ReplacementCards(reclaims) <= named &&
            |part| + |reclaims| <= |named|
  {
    ReplacementCount(reclaims);
    var named, all := Named(comps, additions, reclaims), part + ReplacementCards(reclaims);
    assert |named - all| == |named| - |all|;
  }

  /** A card made of parts in hand: the search would have found it. */
  lemma NoPlayUses(hand: seq<Card>, discard: Card, table: seq<Comp>, comps: seq<Comp>, additions: seq<Addition>,
                   reclaims: seq<JokerReclaim>)
    requires AllOk(table) && NothingUses(hand, discard, table, true)
    ensures !Uses(hand, discard, table, comps, additions, reclaims)
  {
    hide NothingUses, CompOk, TableMoves, Named, TableCards, AdditionCards, ReplacementCards, AddedTo, ApplyTablePlay,
         UsesCard,
         DirectPlay, ValidPlay;
    if Uses(hand, discard, table, comps, additions, reclaims) {
      UseFacts(hand, discard, table, comps, additions, reclaims);
      var named := Named(comps, additions, reclaims);
      if reclaims != [] && reclaims[0].replacement == discard {
        DiscardReclaims(hand, discard, table, reclaims);
        SearchedReclaim(hand, discard, table, reclaims);
      } else {
        var k := 0;
        NamedParts(comps, additions, reclaims, discard);
        if reclaims != [] {
          k := ReclaimingCard(hand, discard, table, reclaims, named);
        }
        if discard in TableCards(comps) {
          InTableCards(comps, discard);
          var i :| 0 <= i < |comps| && discard in comps[i].cards;
          TableCardsUpdate(comps, i, comps[i]);
          PartsOfNamed(comps, additions, reclaims, multiset(comps[i].cards));
          PartCanBeHad(hand, discard, reclaims, k, multiset(comps[i].cards), named);
          ThreeCards(comps[i]);
          var rest := DiscardInComposition(hand, discard, table, reclaims, k, comps[i]);
          SearchedComposition(hand, discard, table, reclaims, k, rest, comps[i].variant);
        } else {
          var x := SomewhereAdded(additions, discard);
          var i :| 0 <= i < |additions| && additions[i].compositionIndex == x;
          AddedInRange(table, additions, reclaims, i);
          AddedIsNamed(additions, x);
          PartsOfNamed(comps, additions, reclaims, AddedTo(additions, x));
          PartCanBeHad(hand, discard, reclaims, k, AddedTo(additions, x), named);
          var rest := DiscardInAddition(hand, discard, table, additions, reclaims, k, x);
          SearchedAddition(hand, discard, table, reclaims, k, rest, x);
        }
      }
    }
  }

  lemma NamedParts(comps: seq<Comp>, additions: seq<Addition>, reclaims: seq<JokerReclaim>, c: Card)
    requires |reclaims| <= 1 && c in Named(comps, additions, reclaims)
    requires reclaims != [] ==> reclaims[0].replacement != c
    ensures c in TableCards(comps) || c in AdditionCards(additions)
    ensures ReplacementCards(reclaims) <= Named(comps, additions, reclaims)
  {
    if reclaims != [] {
      assert reclaims == [reclaims[0]] && reclaims[..0] == [];
      assert ReplacementCards(reclaims) == multiset{reclaims[0].replacement};
    }
  }

  /** Completeness and soundness in one: the answer of the search for a player who has opened. */
  lemma TakeableIff(hand: seq<Card>, discard: Card, table: seq<Comp>, ok: bool, s: SearchState, q: SearchPlay)
    requires AllOk(table)
    requires ok ==> Accepted(s, q, q.reclaims) && BaseOf(s, hand + [discard], q) && s.table == table && s.hasOpened &&
                    OneAtOnce(table, q.reclaims)
    requires !ok ==> NothingUses(hand, discard, table, true)
    ensures ok <==> SomePlayUses(hand, discard, table)
  {
    hide CompOk, Accepted, BaseOf, NothingUses, Uses, OneAtOnce;
    if ok {
      FoundIsUse(hand, discard, s, q);
    } else {
      forall comps, additions, reclaims
        ensures !Uses(hand, discard, table, comps, additions, reclaims)
      {
        NoPlayUses(hand, discard, table, comps, additions, reclaims);
      }
    }
  }
}
