/** What a table play comes to, without the executor's own bookkeeping: the error in terms of the cards and the
    points on the table, and composition by composition what the table gains. */
module PlayOutcomes {
  import opened Cards
  import opened RunLayout
  import opened Compositions
  import opened Piles
  import opened TablePlay
  import opened PlayedCards
  import opened SearchPlays
  import opened GameInvariants

  // ---------------------------------------------------------------- points

  ghost function TablePoints(table: seq<Comp>): int
    requires AllOk(table)
  {
    if table == [] then 0
    else
      var c := table[|table| - 1];
      TablePoints(table[..|table| - 1]) + Points(c.variant, c.cards)
  }

  lemma {:induction false} TablePointsUpdate(table: seq<Comp>, i: nat, c: Comp)
    requires AllOk(table) && CompOk(c) && i < |table|
    ensures AllOk(table[i := c])
    ensures TablePoints(table[i := c]) ==
            TablePoints(table) - Points(table[i].variant, table[i].cards) + Points(c.variant, c.cards)
  {
    hide CompOk, Points;
    OkHasPoints(table[i]);
    OkHasPoints(c);
    var k := |table| - 1;
    if i == k {
      assert table[i := c][..k] == table[..k];
    } else {
      TablePointsUpdate(table[..k], i, c);
      assert table[i := c][..k] == table[..k][i := c];
    }
  }

  lemma OkHasPoints(c: Comp)
    requires CompOk(c)
    ensures ValidCards(c.variant, c.cards) && CompPoints(c) == Points(c.variant, c.cards)
  {
  }

  /** Additions score what they add to the points on the table. */
  lemma {:induction false} AdditionPoints(s: Adding, additions: seq<Addition>)
    requires AllOk(s.table) && AddAll(s, additions).Some?
    ensures var a := AddAll(s, additions).value;
            AllOk(a.table) && a.points == s.points + TablePoints(a.table) - TablePoints(s.table)
  {
    hide CompOk, WithInsertedCards, CompPoints, Points, ShiftAll;
    if additions != [] {
      var k := |additions| - 1;
      AdditionPoints(s, additions[..k]);
      var r, a := AddAll(s, additions[..k]).value, additions[k];
      var target := r.table[a.compositionIndex];
      var index := if a.insertIndex.Some? then a.insertIndex.value else |target.cards|;
      InsertionAdds(target, index, a.cards);
      var extended := WithInsertedCards(target, index, a.cards).value;
      TablePointsUpdate(r.table, a.compositionIndex, extended);
      OkHasPoints(target);
      OkHasPoints(extended);
    }
  }

  // ---------------------------------------------------------------- new compositions

  /** A composition that may be laid: valid, and a run recognised in one of its two directions. */
  ghost predicate Layable(c: Comp) {
    ValidCards(c.variant, c.cards) &&
    (c.variant == Run ==> CardsAreOrdered(c.cards) || ReverseOrdered(c.cards))
  }

  /** The same composition up to the order of a run's cards. */
  ghost predicate SameCards(c: Comp, d: Comp) {
    d.variant == c.variant && multiset(d.cards) == multiset(c.cards)
  }

  lemma LaidIff(c: Comp)
    requires CompOk(c)
    ensures LaidComp(c).Some? <==> Layable(c)
    ensures LaidComp(c).Some? ==> CompOk(LaidComp(c).value) && SameCards(c, LaidComp(c).value)
    ensures LaidComp(c).Some? ==> CompPoints(LaidComp(c).value) == Points(c.variant, c.cards)
  {
    LaidCompOk(c);
    if LaidComp(c).Some? {
      PointsIgnoreOrder(c.variant, c.cards, LaidComp(c).value.cards);
    }
  }

  /** All compositions are laid or none; each keeps variant and cards, together they score their points. */
  lemma {:induction false} LayingIff(comps: seq<Comp>)
    requires AllOk(comps)
    ensures LayComps(comps).Some? <==> forall i :: 0 <= i < |comps| ==> Layable(comps[i])
    ensures LayComps(comps).Some? ==>
              var laid := LayComps(comps).value;
              |laid.comps| == |comps| && laid.points == TablePoints(comps) &&
              forall i :: 0 <= i < |comps| ==> CompOk(laid.comps[i]) && SameCards(comps[i], laid.comps[i])
  {
    hide CompOk, LaidComp, Layable, CompPoints, Points;
    if comps != [] {
      var k := |comps| - 1;
      LayingIff(comps[..k]);
      LaidIff(comps[k]);
      assert (forall i :: 0 <= i < |comps| ==> Layable(comps[i])) <==>
             (forall i :: 0 <= i < k ==> Layable(comps[..k][i])) && Layable(comps[k]);
    }
  }

  // ---------------------------------------------------------------- the outcome

  /** Points gained: those of the new compositions, and what the additions add to the table as the immediate
      reclaims left it. */
  ghost function Gained(table: seq<Comp>, comps: seq<Comp>, additions: seq<Addition>, reclaims: seq<JokerReclaim>): int
    requires AllOk(table) && AllOk(comps) && TableMoves(table, additions, reclaims).Some?
  {
    ReclaimAllKeeps(table, reclaims);
    var r := ReclaimAll(table, reclaims).value;
    var a := AddAll(Adding(r.table, r.deferred, [], 0), additions).value;
    AdditionPoints(Adding(r.table, r.deferred, [], 0), additions);
    TablePoints(comps) + TablePoints(a.table) - TablePoints(r.table)
  }

  lemma MovesScore(table: seq<Comp>, additions: seq<Addition>, reclaims: seq<JokerReclaim>)
    requires AllOk(table) && TableMoves(table, additions, reclaims).Some?
    ensures TableMoves(table, additions, reclaims).value.points == Gained(table, [], additions, reclaims)
  {
    hide CompOk, ReclaimStep, AddStep, FinishAll;
    ReclaimAllKeeps(table, reclaims);
    var r := ReclaimAll(table, reclaims).value;
    AdditionPoints(Adding(r.table, r.deferred, [], 0), additions);
  }

  /** The hand and the jokers the play takes back. */
  function InHand(s: TableState, reclaims: seq<JokerReclaim>): multiset<Card> {
    multiset(s.hand)[Joker := multiset(s.hand)[Joker] + |reclaims|]
  }

  lemma JokersTaken(hand: seq<Card>, reclaimed: seq<Card>)
    requires AllJokerCards(reclaimed)
    ensures multiset(hand + reclaimed) == multiset(hand)[Joker := multiset(hand)[Joker] + |reclaimed|]
  {
    hide OnTable;
    AllTheSame(reclaimed);
  }

  lemma {:induction false} AllTheSame(reclaimed: seq<Card>)
    requires AllJokerCards(reclaimed)
    ensures multiset(reclaimed) == multiset{}[Joker := |reclaimed|]
  {
    if reclaimed != [] {
      var k := |reclaimed| - 1;
      AllTheSame(reclaimed[..k]);
      assert reclaimed == reclaimed[..k] + [reclaimed[k]];
    } else {
      assert multiset{}[Joker := 0] == multiset{};
    }
  }

  /** Every composition may be laid and every move on the table goes through. */
  ghost predicate GoesThrough(s: TableState, comps: seq<Comp>, additions: seq<Addition>, reclaims: seq<JokerReclaim>) {
    (forall i :: 0 <= i < |comps| ==> Layable(comps[i])) && TableMoves(s.table, additions, reclaims).Some?
  }

  /** The executor's answer, check by check: an unopened player needs a composition made of cards in hand and
      40 points; then the cards named must be in hand with the jokers taken back, and not be all of them. */
  lemma PlayAnswer(s: TableState, comps: seq<Comp>, additions: seq<Addition>, reclaims: seq<JokerReclaim>)
    requires AllOk(s.table) && AllOk(comps)
    ensures var r := ApplyTablePlay(s, comps, additions, reclaims);
            var named := Named(comps, additions, reclaims);
            if !GoesThrough(s, comps, additions, reclaims) then r == Failure(InvalidComposition)
            else if !s.hasOpened && !HasOwnComposition(s.hand, comps) then
              r == Failure(InitialPlayRequiresOwnComp)
            else if !s.hasOpened && Gained(s.table, comps, additions, reclaims) < 40 then
              r == Failure(InitialPointsNotMet)
            else if !(named <= InHand(s, reclaims)) then r == Failure(CardsNotInHand)
            else if named == InHand(s, reclaims) then r == Failure(MustKeepDiscardCard)
            else r.Success? && multiset(r.value.hand) == InHand(s, reclaims) - named && r.value.hasOpened
  {
    hide CompOk, LayComps, TableMoves, RemoveEach, Layable, Named, TablePoints, TableCards, CompPoints, InHand;
    LayingIff(comps);
    if GoesThrough(s, comps, additions, reclaims) {
      var o := OnTable(s.table, comps, additions, reclaims).value;
      SameOpening(s.hand, comps, o.laid.comps);
      MovesScore(s.table, additions, reclaims);
      GainedSplits(s.table, comps, additions, reclaims);
      PlayTakesNamed(s.table, comps, additions, reclaims);
      OnTableKeeps(s.table, comps, additions, reclaims);
      JokersInHand(s, o.reclaimed, reclaims);
      RemoveEachSubtracts(s.hand + o.reclaimed, o.played);
      if RemoveEach(s.hand + o.reclaimed, o.played).Some? {
        NothingLeft(s.hand + o.reclaimed, o.played);
      }
    }
  }

  /** A new composition consists of cards in hand. */
  ghost predicate HasOwnComposition(hand: seq<Card>, comps: seq<Comp>) {
    exists i :: 0 <= i < |comps| && forall c :: multiset(comps[i].cards)[c] <= multiset(hand)[c]
  }

  lemma SameOpening(hand: seq<Card>, comps: seq<Comp>, laid: seq<Comp>)
    requires |laid| == |comps| && forall i :: 0 <= i < |comps| ==> SameCards(comps[i], laid[i])
    ensures OpensFromHand(hand, laid) <==> HasOwnComposition(hand, comps)
  {
    if i :| 0 <= i < |comps| && forall c :: multiset(comps[i].cards)[c] <= multiset(hand)[c] {
      assert multiset(laid[i].cards) <= multiset(hand);
    }
  }

  lemma GainedSplits(table: seq<Comp>, comps: seq<Comp>, additions: seq<Addition>, reclaims: seq<JokerReclaim>)
    requires AllOk(table) && AllOk(comps) && TableMoves(table, additions, reclaims).Some?
    ensures Gained(table, comps, additions, reclaims) == TablePoints(comps) + Gained(table, [], additions, reclaims)
  {
    hide CompOk, ReclaimAll, AddAll, TableMoves;
  }

  lemma JokersInHand(s: TableState, reclaimed: seq<Card>, reclaims: seq<JokerReclaim>)
    requires AllJokerCards(reclaimed) && |reclaimed| == |reclaims|
    ensures multiset(s.hand + reclaimed) == InHand(s, reclaims)
  {
    JokersTaken(s.hand, reclaimed);
  }

  lemma NothingLeft(cards: seq<Card>, played: seq<Card>)
    requires multiset(played) <= multiset(cards) && RemoveEach(cards, played).Some?
    requires |RemoveEach(cards, played).value| + |played| == |cards|
    ensures RemoveEach(cards, played).value == [] <==> multiset(played) == multiset(cards)
  {
    hide RemoveEach;
    assert |multiset(played)| == |played| && |multiset(cards)| == |cards|;
    if |played| == |cards| {
      assert |multiset(cards) - multiset(played)| == 0;
      assert multiset(cards) - multiset(played) == multiset{};
    }
  }

  // ---------------------------------------------------------------- the table, composition by composition

  ghost function AddedTo(additions: seq<Addition>, x: int): multiset<Card> {
    if additions == [] then multiset{}
    else
      var k := |additions| - 1;
      AddedTo(additions[..k], x) +
      if additions[k].compositionIndex == x then multiset(additions[k].cards) else multiset{}
  }

  /** The cards that replace jokers of composition `x`. */
  ghost function ReplacedOn(reclaims: seq<JokerReclaim>, x: int): multiset<Card> {
    if reclaims == [] then multiset{}
    else
      var k := |reclaims| - 1;
      ReplacedOn(reclaims[..k], x) +
      if reclaims[k].compositionIndex == x then multiset{reclaims[k].replacement} else multiset{}
  }

  ghost function WaitingOn(deferred: seq<Deferred>, x: int): multiset<Card> {
    if deferred == [] then multiset{}
    else
      var k := |deferred| - 1;
      WaitingOn(deferred[..k], x) +
      if deferred[k].reclaim.compositionIndex == x then multiset{deferred[k].reclaim.replacement} else multiset{}
  }

  /** `after` is `before` with the cards of `gone` in place of as many jokers. */
  ghost predicate Exchanged(before: Comp, after: Comp, gone: multiset<Card>) {
    after.variant == before.variant && multiset(after.cards) + Jokers(|gone|) == multiset(before.cards) + gone
  }

  ghost predicate PartlyExchanged(before: multiset<Card>, after: multiset<Card>, asked: multiset<Card>,
                                  waiting: multiset<Card>) {
    after + Jokers(|asked|) + waiting == before + asked + Jokers(|waiting|)
  }

  lemma OneMoreWaits(before: multiset<Card>, after: multiset<Card>, asked: multiset<Card>,
                     waiting: multiset<Card>, c: Card)
    requires PartlyExchanged(before, after, asked, waiting)
    ensures PartlyExchanged(before, after, asked + multiset{c}, waiting + multiset{c})
  {
    assert |asked + multiset{c}| == |asked| + 1 && |waiting + multiset{c}| == |waiting| + 1;
    var left := after + Jokers(|asked| + 1) + (waiting + multiset{c});
    var right := before + (asked + multiset{c}) + Jokers(|waiting| + 1);
    forall x: Card
      ensures left[x] == right[x]
    {
      assert (after + Jokers(|asked|) + waiting)[x] == (before + asked + Jokers(|waiting|))[x];
    }
  }

  lemma OneMoreJoker(n: nat)
    ensures Jokers(n + 1) == Jokers(n) + multiset{Joker}
  {
  }

  lemma OneMoreExchanged(before: multiset<Card>, after: multiset<Card>, asked: multiset<Card>,
                          waiting: multiset<Card>, c: Card)
    requires PartlyExchanged(before, after, asked, waiting) && Joker in after
    ensures PartlyExchanged(before, after - multiset{Joker} + multiset{c}, asked + multiset{c}, waiting)
  {
    OneMoreJoker(|asked|);
    assert |asked + multiset{c}| == |asked| + 1;
    var j := Jokers(|asked|);
    assert after - multiset{Joker} + multiset{c} + (j + multiset{Joker}) + waiting == after + j + waiting + multiset{c};
  }

  /** One reclaim, seen from composition `x`. */
  lemma ReclaimExchanges(before: multiset<Card>, s: Reclaiming, q: JokerReclaim, x: nat, asked: multiset<Card>)
    requires AllOk(s.table) && ReclaimStep(s, q).Some? && x < |s.table|
    requires PartlyExchanged(before, multiset(s.table[x].cards), asked, WaitingOn(s.deferred, x))
    ensures var r := ReclaimStep(s, q).value;
            |r.table| == |s.table| && r.table[x].variant == s.table[x].variant && AllOk(r.table) &&
            PartlyExchanged(before, multiset(r.table[x].cards),
                            asked + if q.compositionIndex == x then multiset{q.replacement} else multiset{},
                            WaitingOn(r.deferred, x))
  {
    hide CompOk, ReclaimJoker, PartlyExchanged;
    var r, target := ReclaimStep(s, q).value, s.table[q.compositionIndex];
    ReclaimSucceeds(target, q.jokerIndex, q.replacement);
    assert asked + multiset{} == asked && WaitingOn(s.deferred, x) + multiset{} == WaitingOn(s.deferred, x);
    if ReclaimJoker(target, q.jokerIndex, q.replacement).None? {
      assert r.deferred[..|r.deferred| - 1] == s.deferred;
      if q.compositionIndex == x {
        OneMoreWaits(before, multiset(target.cards), asked, WaitingOn(s.deferred, x), q.replacement);
      }
    } else if q.compositionIndex == x {
      assert Joker in multiset(target.cards);
      OneMoreExchanged(before, multiset(target.cards), asked, WaitingOn(s.deferred, x), q.replacement);
    }
  }

  lemma {:induction false} ReclaimsExchange(table: seq<Comp>, reclaims: seq<JokerReclaim>, x: nat)
    requires AllOk(table) && ReclaimAll(table, reclaims).Some? && x < |table|
    ensures var r := ReclaimAll(table, reclaims).value;
            |r.table| == |table| && r.table[x].variant == table[x].variant && AllOk(r.table) &&
            PartlyExchanged(multiset(table[x].cards), multiset(r.table[x].cards), ReplacedOn(reclaims, x),
                            WaitingOn(r.deferred, x))
  {
    hide CompOk, ReclaimStep, PartlyExchanged;
    if reclaims != [] {
      var k := |reclaims| - 1;
      ReclaimsExchange(table, reclaims[..k], x);
      ReclaimExchanges(multiset(table[x].cards), ReclaimAll(table, reclaims[..k]).value, reclaims[k], x,
                       ReplacedOn(reclaims[..k], x));
    } else {
      NothingExchanged(multiset(table[x].cards));
    }
  }

  lemma NothingExchanged(m: multiset<Card>)
    ensures PartlyExchanged(m, m, multiset{}, multiset{})
  {
  }

  lemma {:induction false} ShiftKeepsWaitingOn(ds: seq<Deferred>, compositionIndex: int, insertIndex: int, count: nat,
                                               x: int)
    ensures WaitingOn(ShiftAll(ds, compositionIndex, insertIndex, count), x) == WaitingOn(ds, x)
  {
    if ds != [] {
      var k := |ds| - 1;
      ShiftKeepsWaitingOn(ds[..k], compositionIndex, insertIndex, count, x);
      var shifted := ShiftAll(ds, compositionIndex, insertIndex, count);
      assert shifted[..k] == ShiftAll(ds[..k], compositionIndex, insertIndex, count);
    }
  }

  lemma {:induction false} AdditionsAdd(s: Adding, additions: seq<Addition>, x: nat)
    requires AllOk(s.table) && AddAll(s, additions).Some? && x < |s.table|
    ensures var a := AddAll(s, additions).value;
            |a.table| == |s.table| && a.table[x].variant == s.table[x].variant && AllOk(a.table) &&
            multiset(a.table[x].cards) == multiset(s.table[x].cards) + AddedTo(additions, x) &&
            WaitingOn(a.deferred, x) == WaitingOn(s.deferred, x)
  {
    hide CompOk, WithInsertedCards, CompPoints;
    if additions != [] {
      var k := |additions| - 1;
      AdditionsAdd(s, additions[..k], x);
      var r, a := AddAll(s, additions[..k]).value, additions[k];
      var target := r.table[a.compositionIndex];
      var index := if a.insertIndex.Some? then a.insertIndex.value else |target.cards|;
      InsertionAdds(target, index, a.cards);
      ShiftKeepsWaitingOn(r.deferred, a.compositionIndex, index, |a.cards|, x);
    }
  }

  lemma {:induction false} FinishingExchanges(s: Finishing, deferred: seq<Deferred>, x: nat)
    requires AllOk(s.table) && FinishAll(s, deferred).Some? && x < |s.table|
    ensures var f := FinishAll(s, deferred).value;
            |f.table| == |s.table| && AllOk(f.table) && Exchanged(s.table[x], f.table[x], WaitingOn(deferred, x))
  {
    hide CompOk, ReclaimJoker, Exchanged;
    if deferred != [] {
      var k := |deferred| - 1;
      FinishingExchanges(s, deferred[..k], x);
      var r, d := FinishAll(s, deferred[..k]).value, deferred[k];
      var target := r.table[d.reclaim.compositionIndex];
      ReclaimSucceeds(target, d.jokerIndex, d.reclaim.replacement);
      assert WaitingOn(deferred[..k], x) + multiset{} == WaitingOn(deferred[..k], x);
      if d.reclaim.compositionIndex == x {
        assert Joker in multiset(target.cards);
        OneMoreGone(s.table[x], target, FinishAll(s, deferred).value.table[x], WaitingOn(deferred[..k], x),
                    d.reclaim.replacement);
      }
    } else {
      NothingGone(s.table[x]);
    }
  }

  lemma NothingGone(c: Comp)
    ensures Exchanged(c, c, multiset{})
  {
  }

  lemma OneMoreGone(before: Comp, mid: Comp, after: Comp, gone: multiset<Card>, c: Card)
    requires Exchanged(before, mid, gone) && after.variant == mid.variant && Joker in multiset(mid.cards)
    requires multiset(after.cards) == multiset(mid.cards) - multiset{Joker} + multiset{c}
    ensures Exchanged(before, after, gone + multiset{c})
  {
    assert |gone + multiset{c}| == |gone| + 1;
    forall x: Card
      ensures (multiset(after.cards) + Jokers(|gone| + 1))[x] == (multiset(before.cards) + (gone + multiset{c}))[x]
    {
      assert (multiset(mid.cards) + Jokers(|gone|))[x] == (multiset(before.cards) + gone)[x];
    }
  }

  lemma AddExchanges(t: multiset<Card>, r: multiset<Card>, a: multiset<Card>, f: multiset<Card>, added: multiset<Card>,
                     asked: multiset<Card>, waiting: multiset<Card>)
    requires PartlyExchanged(t, r, asked, waiting) && a == r + added && f + Jokers(|waiting|) == a + waiting
    ensures f + Jokers(|asked|) == t + added + asked
  {
    forall x: Card
      ensures (f + Jokers(|asked|))[x] == (t + added + asked)[x]
    {
      assert (r + Jokers(|asked|) + waiting)[x] == (t + asked + Jokers(|waiting|))[x];
      assert (f + Jokers(|waiting|))[x] == (a + waiting)[x];
    }
  }

  /** A play leaves every composition of the table in its place and of its variant: it gains the cards added to
      it, and gives a joker for each card that replaces one. */
  lemma EachCompositionGains(table: seq<Comp>, additions: seq<Addition>, reclaims: seq<JokerReclaim>, x: nat)
    requires AllOk(table) && TableMoves(table, additions, reclaims).Some? && x < |table|
    ensures var m := TableMoves(table, additions, reclaims).value;
            |m.table| == |table| && CompOk(m.table[x]) && m.table[x].variant == table[x].variant &&
            multiset(m.table[x].cards) + Jokers(|ReplacedOn(reclaims, x)|) ==
            multiset(table[x].cards) + AddedTo(additions, x) + ReplacedOn(reclaims, x)
  {
    hide CompOk, ReclaimStep, AddStep, FinishStep, PartlyExchanged;
    ReclaimsExchange(table, reclaims, x);
    var r := ReclaimAll(table, reclaims).value;
    var start := Adding(r.table, r.deferred, [], 0);
    AdditionsAdd(start, additions, x);
    var a := AddAll(start, additions).value;
    FinishingExchanges(Finishing(a.table, r.reclaimed, []), a.deferred, x);
    AddExchanges(multiset(table[x].cards), multiset(r.table[x].cards), multiset(a.table[x].cards),
                 multiset(TableMoves(table, additions, reclaims).value.table[x].cards), AddedTo(additions, x),
                 ReplacedOn(reclaims, x), WaitingOn(r.deferred, x));
  }

  /** The table after a successful play: the old compositions with what they gained, then the new ones. */
  lemma TableAfterPlay(s: TableState, comps: seq<Comp>, additions: seq<Addition>, reclaims: seq<JokerReclaim>, x: nat)
    requires AllOk(s.table) && AllOk(comps) && ApplyTablePlay(s, comps, additions, reclaims).Success?
    requires x < |s.table| + |comps|
    ensures var table := ApplyTablePlay(s, comps, additions, reclaims).value.table;
            |table| == |s.table| + |comps| && CompOk(table[x]) &&
            if x < |s.table| then
              table[x].variant == s.table[x].variant &&
              multiset(table[x].cards) + Jokers(|ReplacedOn(reclaims, x)|) ==
              multiset(s.table[x].cards) + AddedTo(additions, x) + ReplacedOn(reclaims, x)
            else SameCards(comps[x - |s.table|], table[x])
  {
    hide CompOk, LayComps, TableMoves, RemoveEach, Layable, AddedTo, ReplacedOn, SameCards;
    LayingIff(comps);
    if x < |s.table| {
      EachCompositionGains(s.table, additions, reclaims, x);
    } else {
      TableMovesKeeps(s.table, additions, reclaims);
    }
  }

  // ---------------------------------------------------------------- which moves go through

  /** Where the cards go: the place asked for, or the end. */
  function PlaceOf(a: Addition, c: Comp): int {
    if a.insertIndex.Some? then a.insertIndex.value else |c.cards|
  }

  /** An addition goes through exactly when it names cards, a composition and a place in it, and the cards make a
      valid composition there. */
  lemma AdditionIff(s: Adding, a: Addition)
    requires AllOk(s.table)
    ensures AddStep(s, a).Some? <==>
              a.cards != [] && 0 <= a.compositionIndex < |s.table| &&
              var c := s.table[a.compositionIndex]; var k := PlaceOf(a, c);
              0 <= k <= |c.cards| && ValidCards(c.variant, c.cards[..k] + a.cards + c.cards[k..])
  {
    if 0 <= a.compositionIndex < |s.table| {
      var c := s.table[a.compositionIndex];
      if 0 <= PlaceOf(a, c) <= |c.cards| && ValidCards(c.variant, Inserted(c.cards, PlaceOf(a, c), a.cards)) {
        MakeCompOk(Inserted(c.cards, PlaceOf(a, c), a.cards), c.variant, false);
      }
    }
  }

  /** A reclaim is made at once when its joker stands for the replacement only; it waits when its set has other
      cards to complete it as well; otherwise it fails. */
  lemma ReclaimIff(s: Reclaiming, r: JokerReclaim)
    requires AllOk(s.table)
    ensures ReclaimStep(s, r).Some? <==>
              0 <= r.compositionIndex < |s.table| &&
              var c := s.table[r.compositionIndex];
              CanReclaimJoker(c, r.jokerIndex, r.replacement) || IsAmbiguousSetReclaim(c, r.jokerIndex, r.replacement)
    ensures ReclaimStep(s, r).Some? ==>
              var t, c := ReclaimStep(s, r).value, s.table[r.compositionIndex];
              if CanReclaimJoker(c, r.jokerIndex, r.replacement) then t.deferred == s.deferred
              else t.table == s.table && t.deferred == s.deferred + [Deferred(r, r.jokerIndex)]
  {
    if 0 <= r.compositionIndex < |s.table| {
      ReclaimSucceeds(s.table[r.compositionIndex], r.jokerIndex, r.replacement);
    }
  }

  /** A waiting reclaim goes through exactly when by then its joker stands for the replacement only. */
  lemma WaitingIff(s: Finishing, d: Deferred)
    requires AllOk(s.table) && 0 <= d.reclaim.compositionIndex < |s.table|
    ensures FinishStep(s, d).Some? <==>
              CanReclaimJoker(s.table[d.reclaim.compositionIndex], d.jokerIndex, d.reclaim.replacement)
  {
    ReclaimSucceeds(s.table[d.reclaim.compositionIndex], d.jokerIndex, d.reclaim.replacement);
  }
}
