/** The discard search before the player has opened: it finds every play with at most one reclaim in which each
    selection of cards is put to the first use it has, however many compositions and additions that takes. */
module OpeningSearch {
  import opened Cards
  import opened Compositions
  import JokerMeaning
  import opened TablePlay
  import opened PlayedCards
  import opened Masks
  import opened SearchPlays
  import opened SearchChoices
  import opened DiscardSearch
  import opened DiscardComplete
  import opened GameInvariants
  import opened PlayOutcomes
  import opened SearchSelections

  // ---------------------------------------------------------------- the parts of a play

  /** All the cards added to composition `x`. */
  function AddedCards(additions: seq<Addition>, x: int): seq<Card> {
    if additions == [] then []
    else
      var k := |additions| - 1;
      AddedCards(additions[..k], x) + if additions[k].compositionIndex == x then additions[k].cards else []
  }

  lemma {:induction false} AddedCardsAre(additions: seq<Addition>, x: int)
    ensures multiset(AddedCards(additions, x)) == AddedTo(additions, x)
  {
    if additions != [] {
      AddedCardsAre(additions[..|additions| - 1], x);
    }
  }

  function LaidParts(comps: seq<Comp>): (parts: seq<Part>)
    ensures |parts| == |comps|
    ensures forall i :: 0 <= i < |comps| ==> parts[i] == Part(comps[i].cards, Lay(comps[i].variant))
  {
    if comps == [] then []
    else
      var k := |comps| - 1;
      LaidParts(comps[..k]) + [Part(comps[k].cards, Lay(comps[k].variant))]
  }

  /** The new compositions, and what is added to each of the first `count` compositions of the table. */
  function Parts(comps: seq<Comp>, additions: seq<Addition>, count: nat): seq<Part> {
    if count == 0 then LaidParts(comps)
    else
      var cards := AddedCards(additions, count - 1);
      Parts(comps, additions, count - 1) + if cards == [] then [] else [Part(cards, Add(count - 1))]
  }

  /** The cards have no use that the search would try before this one. */
  ghost predicate NoEarlierUse(table: seq<Comp>, cards: seq<Card>, use: Use) {
    match use
    case Lay(Set) => true
    case Lay(Run) => !ValidCards(Set, cards)
    case Add(ci) => UselessBefore(table, cards, ci)
  }

  ghost predicate PlainUses(table: seq<Comp>, comps: seq<Comp>, additions: seq<Addition>) {
    && (forall i :: 0 <= i < |comps| ==> NoEarlierUse(table, comps[i].cards, Lay(comps[i].variant)))
    && (forall x: nat :: x < |table| && AddedCards(additions, x) != [] ==>
          NoEarlierUse(table, AddedCards(additions, x), Add(x)))
  }

  lemma MoreParts(base: seq<Comp>, table: seq<Comp>, parts: seq<Part>, part: Part)
    requires AllOk(table) && AllFit(base, table, parts) && PartsApart(parts)
    requires Good(table, part) && FirstUse(base, part.cards, part.use) && Target(part.use) !! PartTargets(parts)
    ensures var all := parts + [part];
            && AllFit(base, table, all) && PartsApart(all) && PartTargets(all) == PartTargets(parts) + Target(part.use)
            && PartCards(all) == PartCards(parts) + multiset(part.cards)
            && PartWorth(table, all) == PartWorth(table, parts) + Worth(table, part)
            && (AnyLaidPart(parts) ==> AnyLaidPart(all))
  {
    hide Good, FirstUse, Worth, CompOk;
    var all := parts + [part];
    assert all[..|all| - 1] == parts;
    if i :| 0 <= i < |parts| && parts[i].use.Lay? {
      assert all[i].use.Lay?;
    }
  }

  lemma {:induction false} LaidPartsAre(base: seq<Comp>, table: seq<Comp>, comps: seq<Comp>)
    requires AllOk(table) && AllOk(comps) && PlainUses(base, comps, [])
    ensures var parts := LaidParts(comps);
            && AllFit(base, table, parts) && PartsApart(parts) && PartTargets(parts) == {}
            && PartCards(parts) == TableCards(comps) && PartWorth(table, parts) == TablePoints(comps)
            && (comps != [] ==> AnyLaidPart(parts))
  {
    hide CompOk, ValidCards, Points, NoEarlierUse, FirstUse, Good, Worth, AllFit;
    if comps == [] {
      NoParts(base, table);
    } else {
      var k := |comps| - 1;
      FewerPlain(base, comps);
      LaidPartsAre(base, table, comps[..k]);
      var part := Part(comps[k].cards, Lay(comps[k].variant));
      LaidPart(base, table, comps[k]);
      MoreParts(base, table, LaidParts(comps[..k]), part);
      assert LaidParts(comps)[k].use.Lay?;
    }
  }

  lemma NoParts(base: seq<Comp>, table: seq<Comp>)
    requires AllOk(table)
    ensures AllFit(base, table, []) && PartsApart([]) && PartTargets([]) == {} && PartCards([]) == multiset{}
    ensures PartWorth(table, []) == 0
  {
  }

  lemma LaidPart(base: seq<Comp>, table: seq<Comp>, c: Comp)
    requires AllOk(table) && CompOk(c) && NoEarlierUse(base, c.cards, Lay(c.variant))
    ensures var part := Part(c.cards, Lay(c.variant));
            && Good(table, part) && FirstUse(base, part.cards, part.use)
            && ValidCards(c.variant, c.cards) && Worth(table, part) == Points(c.variant, c.cards)
  {
    hide ValidCards, Points, UselessBefore, Fits;
    OkHasPoints(c);
    ThreeCards(c);
  }

  lemma FewerPlain(base: seq<Comp>, comps: seq<Comp>)
    requires comps != [] && PlainUses(base, comps, [])
    ensures PlainUses(base, comps[..|comps| - 1], [])
  {
    hide ValidCards, Fits;
  }

  /** The cards added to the first `count` compositions. */
  ghost function AddedBelow(additions: seq<Addition>, count: nat): multiset<Card> {
    if count == 0 then multiset{} else AddedBelow(additions, count - 1) + AddedTo(additions, count - 1)
  }

  lemma {:induction false} AddedBelowSnoc(additions: seq<Addition>, count: nat)
    requires additions != []
    ensures var k := |additions| - 1;
            AddedBelow(additions, count) ==
            AddedBelow(additions[..k], count) +
            if 0 <= additions[k].compositionIndex < count then multiset(additions[k].cards) else multiset{}
  {
    if count > 0 {
      AddedBelowSnoc(additions, count - 1);
    }
  }

  lemma {:induction false} NothingBelow(count: nat)
    ensures AddedBelow([], count) == multiset{}
  {
    if count > 0 {
      NothingBelow(count - 1);
    }
  }

  lemma {:induction false} AllAdded(additions: seq<Addition>, count: nat)
    requires forall i :: 0 <= i < |additions| ==> 0 <= additions[i].compositionIndex < count
    ensures AddedBelow(additions, count) == AdditionCards(additions)
  {
    if additions == [] {
      NothingBelow(count);
    } else {
      AddedBelowSnoc(additions, count);
      AllAdded(additions[..|additions| - 1], count);
    }
  }

  /** What goes through on the table the reclaim left also fits the table before it. */
  lemma FitsBefore(table: seq<Comp>, reclaims: seq<JokerReclaim>, cards: seq<Card>, ci: nat)
    requires AllOk(table) && |reclaims| <= 1 && ReclaimAll(table, reclaims).Some? && ci < |table|
    requires Fits(ReclaimAll(table, reclaims).value.table, cards, ci)
    ensures Fits(table, cards, ci)
  {
    hide CompOk, ReclaimAll, ValidCards;
    var after := ReclaimAll(table, reclaims).value.table;
    var c := OneReclaimChanges(table, reclaims, ci);
    if after[ci] != table[ci] {
      InsertedCards(after[ci].cards, 0, cards);
      InsertedCards(table[ci].cards, 0, cards);
      BackToJoker(multiset(table[ci].cards), multiset(after[ci].cards), multiset(cards), c);
      JokerMeaning.JokerInstead(table[ci].variant, Inserted(after[ci].cards, 0, cards),
                                Inserted(table[ci].cards, 0, cards), c);
    }
  }

  /** What is added to a composition fits it, and is worth the difference. */
  lemma AddedPart(table: seq<Comp>, additions: seq<Addition>, x: nat)
    requires AllOk(table) && x < |table| && AddAll(Adding(table, [], [], 0), additions).Some?
    requires AddedCards(additions, x) != []
    ensures var after := AddAll(Adding(table, [], [], 0), additions).value.table;
            var part := Part(AddedCards(additions, x), Add(x));
            && |after| == |table| && AllOk(after) && Good(table, part)
            && Worth(table, part) ==
               Points(after[x].variant, after[x].cards) - Points(table[x].variant, table[x].cards)
  {
    hide CompOk, ValidCards, Points, AddAll;
    var start := Adding(table, [], [], 0);
    AdditionsAdd(start, additions, x);
    AddedCardsAre(additions, x);
    var after := AddAll(start, additions).value.table[x];
    InsertedCards(table[x].cards, 0, AddedCards(additions, x));
    OkHasPoints(after);
    OkHasPoints(table[x]);
    PointsIgnoreOrder(after.variant, after.cards, Inserted(table[x].cards, 0, AddedCards(additions, x)));
  }

  lemma NothingAddedThere(table: seq<Comp>, additions: seq<Addition>, x: nat)
    requires AllOk(table) && x < |table| && AddAll(Adding(table, [], [], 0), additions).Some?
    requires AddedCards(additions, x) == []
    ensures var after := AddAll(Adding(table, [], [], 0), additions).value.table;
            && |after| == |table| && AllOk(after) && AddedTo(additions, x) == multiset{}
            && Points(after[x].variant, after[x].cards) == Points(table[x].variant, table[x].cards)
  {
    hide CompOk, ValidCards, Points, AddAll;
    var start := Adding(table, [], [], 0);
    AdditionsAdd(start, additions, x);
    AddedCardsAre(additions, x);
    var after := AddAll(start, additions).value.table[x];
    OkHasPoints(after);
    OkHasPoints(table[x]);
    PointsIgnoreOrder(after.variant, after.cards, table[x].cards);
  }

  /** The parts of a play account for its cards and its points. */
  ghost predicate Accounts(base: seq<Comp>, table: seq<Comp>, comps: seq<Comp>, additions: seq<Addition>,
                           after: seq<Comp>, count: nat)
    requires AllOk(table) && AllOk(comps) && AllOk(after) && count <= |table| == |after|
  {
    var parts := Parts(comps, additions, count);
    && AllFit(base, table, parts) && PartsApart(parts)
    && (forall x :: x in PartTargets(parts) ==> x < count)
    && PartCards(parts) == TableCards(comps) + AddedBelow(additions, count)
    && PartWorth(table, parts) == TablePoints(comps) + TablePoints(after[..count]) - TablePoints(table[..count])
    && (comps != [] ==> AnyLaidPart(parts))
  }

  lemma TablePointsSnoc(table: seq<Comp>, count: nat)
    requires AllOk(table) && count < |table|
    ensures AllOk(table[..count]) && AllOk(table[..count + 1])
    ensures TablePoints(table[..count + 1]) ==
            TablePoints(table[..count]) + Points(table[count].variant, table[count].cards)
  {
    hide CompOk, Points, ValidCards;
    OkHasPoints(table[count]);
    assert table[..count + 1][..count] == table[..count];
  }

  lemma {:induction false} PartsAccount(base: seq<Comp>, reclaims: seq<JokerReclaim>, comps: seq<Comp>,
                                        additions: seq<Addition>, count: nat)
    requires AllOk(base) && AllOk(comps) && PlainUses(base, comps, additions) && |reclaims| <= 1
    requires ReclaimAll(base, reclaims).Some?
    requires var table := ReclaimAll(base, reclaims).value.table;
             |table| == |base| && AllOk(table) && AddAll(Adding(table, [], [], 0), additions).Some?
    requires count <= |base|
    ensures var table := ReclaimAll(base, reclaims).value.table;
            var after := AddAll(Adding(table, [], [], 0), additions).value.table;
            |after| == |table| && AllOk(after) && Accounts(base, table, comps, additions, after, count)
  {
    hide CompOk, ReclaimAll, AddAll, Good, FirstUse, Worth, ValidCards, Points, AddedCards, NoEarlierUse;
    var table := ReclaimAll(base, reclaims).value.table;
    var after := AddAll(Adding(table, [], [], 0), additions).value.table;
    AdditionsKeepSize(table, additions);
    if count == 0 {
      PlainCompositions(base, comps, additions);
      LaidPartsAre(base, table, comps);
      NothingAccounted(base, table, comps, additions, after);
    } else {
      var x := count - 1;
      PartsAccount(base, reclaims, comps, additions, x);
      AddedCardsAre(additions, x);
      if AddedCards(additions, x) == [] {
        NothingAddedThere(table, additions, x);
        AccountsOver(base, table, comps, additions, after, x);
      } else {
        AddedPart(table, additions, x);
        AddedFirst(base, reclaims, AddedCards(additions, x), x);
        AccountsNext(base, table, comps, additions, after, x);
      }
    }
  }

  /** Nothing is added to composition `x`. */
  lemma AccountsOver(base: seq<Comp>, table: seq<Comp>, comps: seq<Comp>, additions: seq<Addition>, after: seq<Comp>,
                     x: nat)
    requires AllOk(table) && AllOk(comps) && AllOk(after) && x < |table| == |after|
    requires Accounts(base, table, comps, additions, after, x)
    requires AddedCards(additions, x) == [] && AddedTo(additions, x) == multiset{}
    requires Points(after[x].variant, after[x].cards) == Points(table[x].variant, table[x].cards)
    ensures Accounts(base, table, comps, additions, after, x + 1)
  {
    hide CompOk, AllFit, Good, Worth, FirstUse, ValidCards, Points, AnyLaidPart, PartsApart, PartTargets, PartCards;
    TablePointsSnoc(table, x);
    TablePointsSnoc(after, x);
    assert Parts(comps, additions, x + 1) == Parts(comps, additions, x);
  }

  lemma AccountsNext(base: seq<Comp>, table: seq<Comp>, comps: seq<Comp>, additions: seq<Addition>, after: seq<Comp>,
                     x: nat)
    requires AllOk(table) && AllOk(comps) && AllOk(after) && x < |table| == |after|
    requires Accounts(base, table, comps, additions, after, x)
    requires AddedCards(additions, x) != [] && multiset(AddedCards(additions, x)) == AddedTo(additions, x)
    requires var part := Part(AddedCards(additions, x), Add(x));
             && Good(table, part) && FirstUse(base, part.cards, part.use)
             && Worth(table, part) ==
                Points(after[x].variant, after[x].cards) - Points(table[x].variant, table[x].cards)
    ensures Accounts(base, table, comps, additions, after, x + 1)
  {
    hide CompOk, AllFit, Good, Worth, FirstUse, ValidCards, Points, AnyLaidPart, PartsApart, PartTargets, PartCards,
         AddedCards, TableCards;
    TablePointsSnoc(table, x);
    TablePointsSnoc(after, x);
    MoreParts(base, table, Parts(comps, additions, x), Part(AddedCards(additions, x), Add(x)));
  }

  lemma NothingAccounted(base: seq<Comp>, table: seq<Comp>, comps: seq<Comp>, additions: seq<Addition>,
                         after: seq<Comp>)
    requires AllOk(table) && AllOk(comps) && AllOk(after) && |table| == |after|
    requires var parts := LaidParts(comps);
             && AllFit(base, table, parts) && PartsApart(parts) && PartTargets(parts) == {}
             && PartCards(parts) == TableCards(comps) && PartWorth(table, parts) == TablePoints(comps)
             && (comps != [] ==> AnyLaidPart(parts))
    ensures Accounts(base, table, comps, additions, after, 0)
  {
    hide CompOk, AllFit, Good, Worth, FirstUse, AnyLaidPart, PartsApart, PartTargets, PartCards, PartWorth, TablePoints,
         TableCards, LaidParts;
    NoPoints();
    assert after[..0] == [] && table[..0] == [];
  }

  lemma NoPoints()
    ensures TablePoints([]) == 0
  {
  }

  lemma AdditionsKeepSize(table: seq<Comp>, additions: seq<Addition>)
    requires AllOk(table) && AddAll(Adding(table, [], [], 0), additions).Some?
    ensures var after := AddAll(Adding(table, [], [], 0), additions).value.table; |after| == |table| && AllOk(after)
  {
    hide CompOk, AddAll;
    AdditionPoints(Adding(table, [], [], 0), additions);
    SizeStays(Adding(table, [], [], 0), additions);
  }

  lemma {:induction false} SizeStays(s: Adding, additions: seq<Addition>)
    requires AddAll(s, additions).Some?
    ensures |AddAll(s, additions).value.table| == |s.table|
  {
    hide WithInsertedCards, CompPoints;
    if additions != [] {
      SizeStays(s, additions[..|additions| - 1]);
    }
  }

  lemma PlainCompositions(base: seq<Comp>, comps: seq<Comp>, additions: seq<Addition>)
    requires PlainUses(base, comps, additions)
    ensures PlainUses(base, comps, [])
  {
    hide NoEarlierUse;
    forall x: nat
      ensures AddedCards([], x) == []
    {
    }
  }

  lemma AddedFirst(base: seq<Comp>, reclaims: seq<JokerReclaim>, cards: seq<Card>, x: nat)
    requires AllOk(base) && |reclaims| <= 1 && ReclaimAll(base, reclaims).Some? && x < |base|
    requires Good(ReclaimAll(base, reclaims).value.table, Part(cards, Add(x))) && NoEarlierUse(base, cards, Add(x))
    ensures FirstUse(base, cards, Add(x))
  {
    hide CompOk, ReclaimAll, ValidCards, Fits;
    FitsBefore(base, reclaims, cards, x);
  }

  // ---------------------------------------------------------------- one part set apart

  function Others(parts: seq<Part>, d: nat): seq<Part>
    requires d < |parts|
  {
    var k := |parts| - 1;
    if d == k then parts[..k] else Others(parts[..k], d) + [parts[k]]
  }

  /** The others and the part set apart make up all. */
  ghost predicate SetApart(base: seq<Comp>, table: seq<Comp>, parts: seq<Part>, o: seq<Part>, part: Part)
    requires AllOk(table) && AllFit(base, table, parts) && Good(table, part)
  {
    && AllFit(base, table, o) && PartsApart(o) && Target(part.use) !! PartTargets(o)
    && PartTargets(parts) == PartTargets(o) + Target(part.use)
    && PartCards(parts) == PartCards(o) + multiset(part.cards)
    && PartWorth(table, parts) == PartWorth(table, o) + Worth(table, part)
    && (AnyLaidPart(parts) ==> AnyLaidPart(o) || part.use.Lay?)
  }

  lemma {:induction false} OthersAre(base: seq<Comp>, table: seq<Comp>, parts: seq<Part>, d: nat)
    requires AllOk(table) && AllFit(base, table, parts) && PartsApart(parts) && d < |parts|
    ensures SetApart(base, table, parts, Others(parts, d), parts[d])
  {
    hide Good, FirstUse, Worth, CompOk, AllFit, SetApart;
    var k := |parts| - 1;
    FrontFits(base, table, parts);
    FitsEach(base, table, parts, d);
    if d < k {
      OthersAre(base, table, parts[..k], d);
      FitsEach(base, table, parts, k);
      OthersMore(base, table, parts, Others(parts[..k], d), parts[d]);
    } else {
      LastSetApart(base, table, parts);
    }
  }

  lemma FitsEach(base: seq<Comp>, table: seq<Comp>, parts: seq<Part>, d: nat)
    requires AllFit(base, table, parts) && d < |parts|
    ensures Good(table, parts[d]) && FirstUse(base, parts[d].cards, parts[d].use)
  {
    hide Good, FirstUse;
  }

  lemma FitsAll(base: seq<Comp>, table: seq<Comp>, parts: seq<Part>)
    requires AllFit(base, table, parts)
    ensures forall i :: 0 <= i < |parts| ==> Good(table, parts[i])
  {
    hide Good, FirstUse;
  }

  lemma LastSetApart(base: seq<Comp>, table: seq<Comp>, parts: seq<Part>)
    requires AllOk(table) && AllFit(base, table, parts) && PartsApart(parts) && parts != []
    requires AllFit(base, table, parts[..|parts| - 1]) && Good(table, parts[|parts| - 1])
    ensures SetApart(base, table, parts, parts[..|parts| - 1], parts[|parts| - 1])
  {
    hide Good, FirstUse, Worth, CompOk, AllFit;
    if AnyLaidPart(parts) {
      LaidFrontOrLast(parts);
    }
  }

  lemma OthersMore(base: seq<Comp>, table: seq<Comp>, parts: seq<Part>, o: seq<Part>, part: Part)
    requires AllOk(table) && AllFit(base, table, parts) && PartsApart(parts) && parts != [] && Good(table, part)
    requires AllFit(base, table, parts[..|parts| - 1])
    requires var last := parts[|parts| - 1]; Good(table, last) && FirstUse(base, last.cards, last.use)
    requires SetApart(base, table, parts[..|parts| - 1], o, part)
    ensures SetApart(base, table, parts, o + [parts[|parts| - 1]], part)
  {
    hide Good, FirstUse, Worth, CompOk, AllFit, AnyLaidPart;
    var last := parts[|parts| - 1];
    MoreParts(base, table, o, last);
    AnyLaidMore(parts, o, part);
    Regroup(PartCards(o), multiset(part.cards), multiset(last.cards));
    RegroupSets(PartTargets(o), Target(part.use), Target(last.use));
  }

  lemma AnyLaidMore(parts: seq<Part>, o: seq<Part>, part: Part)
    requires parts != [] && (AnyLaidPart(parts[..|parts| - 1]) ==> AnyLaidPart(o) || part.use.Lay?)
    ensures AnyLaidPart(parts) ==> AnyLaidPart(o + [parts[|parts| - 1]]) || part.use.Lay?
  {
    var all := o + [parts[|parts| - 1]];
    if AnyLaidPart(parts) {
      LaidFrontOrLast(parts);
      if i :| 0 <= i < |o| && o[i].use.Lay? {
        assert all[i].use.Lay?;
      }
      assert all[|o|] == parts[|parts| - 1];
    }
  }

  lemma Regroup(a: multiset<Card>, b: multiset<Card>, c: multiset<Card>)
    ensures a + b + c == a + c + b
  {
  }

  lemma RegroupSets(a: set<nat>, b: set<nat>, c: set<nat>)
    ensures a + b + c == a + c + b
  {
  }

  lemma {:induction false} PartWith(parts: seq<Part>, c: Card) returns (d: nat)
    requires c in PartCards(parts)
    ensures d < |parts| && c in parts[d].cards
  {
    var k := |parts| - 1;
    if c in parts[k].cards {
      d := k;
    } else {
      d := PartWith(parts[..k], c);
    }
  }

  // ---------------------------------------------------------------- the parts as a play of the search

  function OpeningState(hand: seq<Card>, discard: Card, table: seq<Comp>, reclaims: seq<JokerReclaim>): SearchState {
    StateFor(hand, discard, table, reclaims).(hasOpened := false)
  }

  lemma StartsEmpty(s: SearchState, table: seq<Comp>, p: SearchPlay, targets: set<nat>)
    requires AllOk(table) && Bare(p)
    ensures Scores(s, table, p, 0) && Untouched(s, table, p, targets)
  {
    assert AdditionsOf(s.hand, p.additions) == [];
    assert AddAll(Adding(table, [], [], 0), []) == Some(Adding(table, [], [], 0));
  }

  lemma ConsChoices(hand: seq<Card>, table: seq<Comp>, c: Selection, choices: seq<Selection>)
    requires AllOk(table) && AllGood(hand, table, choices) && Good(table, PartOf(hand, c))
    requires Apart(choices) && Target(c.use) !! Targets(choices)
    ensures var all := [c] + choices;
            && AllGood(hand, table, all) && Apart(all)
            && TotalWorth(hand, table, all) == Worth(table, PartOf(hand, c)) + TotalWorth(hand, table, choices)
            && (AnyLaid(choices) || c.use.Lay? ==> AnyLaid(all))
  {
    hide Good, Worth, CompOk, MaskCards;
    var all := [c] + choices;
    assert all[1..] == choices;
    LaidStays(c, choices, all);
  }

  /** The replacement and the other parts can still be had beside the part with the discard. */
  lemma OthersCanBeHad(front: seq<Card>, discard: Card, used: nat, rest: nat, named: multiset<Card>,
                       part: multiset<Card>, others: multiset<Card>)
    requires named == others + part + multiset(MaskCards(front, used))
    requires named <= multiset(front) + multiset{discard}
    requires rest < Pow2(|front|) && And(used, Or(rest, Pow2(|front|))) == 0
    requires multiset(MaskCards(front + [discard], Or(rest, Pow2(|front|)))) == part
    ensures multiset(MaskCards(front, Or(used, Or(rest, Pow2(|front|))))) + others <= multiset(front)
  {
    hide And, Or, Bit, Pow2, MaskCards;
    var mask := Or(rest, Pow2(|front|));
    BitBelow(rest, |front|);
    var cards := front + [discard];
    assert cards[..|cards| - 1] == front;
    SelectedLast(cards, mask);
    DisjointMasksAdd(front, used, mask);
    var chosen, took := multiset(MaskCards(front, mask)), multiset(MaskCards(front, used));
    Beside(took + chosen, others, multiset(front), discard);
    assert took + chosen + multiset{discard} + others == named;
  }

  lemma UsedForReclaim(hand: seq<Card>, reclaims: seq<JokerReclaim>, k: nat)
    requires |reclaims| <= 1 && (reclaims != [] ==> k < |hand| && hand[k] == reclaims[0].replacement)
    ensures multiset(MaskCards(Choice(hand, reclaims), PlayFor(reclaims, k).used)) == ReplacementCards(reclaims)
  {
    ReplacementIs(hand, reclaims, k);
    if reclaims == [] {
      NoCards(hand);
    } else {
      MaskCardsSingle(hand + [Joker], k);
    }
  }

  /** The parts of a play of the discard, as choices of the search that make a valid play. */
  lemma PartsAsPlay(hand: seq<Card>, discard: Card, base: seq<Comp>, reclaims: seq<JokerReclaim>, k: nat,
                    parts: seq<Part>, d: nat)
    returns (rest: nat, c: Selection, choices: seq<Selection>)
    requires AllOk(base) && OneAtOnce(base, reclaims) && |reclaims| <= 1 && ReclaimAll(base, reclaims).Some?
    requires reclaims != [] ==> k < |hand| && hand[k] == reclaims[0].replacement
    requires AllOk(ReclaimAll(base, reclaims).value.table)
    requires var table := ReclaimAll(base, reclaims).value.table;
             AllFit(base, table, parts) && PartsApart(parts) && AnyLaidPart(parts) && PartWorth(table, parts) >= 40
    requires d < |parts| && discard in parts[d].cards
    requires var named := PartCards(parts) + ReplacementCards(reclaims);
             named <= multiset(hand) + multiset{discard} + Jokers(|reclaims|) && |named| < |hand| + 1 + |reclaims|
    ensures var s, p, bound := OpeningState(hand, discard, base, reclaims), PlayFor(reclaims, k),
                               Pow2(|Choice(hand, reclaims)|);
            && rest < bound && c.mask == Or(rest, bound) && And(p.used, c.mask) == 0
            && FirstUse(base, MaskCards(s.hand, c.mask), c.use)
            && Ascending(s, Or(p.used, c.mask), 1, bound, choices) && ValidPlay(s, Extend(p, [c] + choices))
  {
    hide CompOk, ReclaimAll, AllFit, Good, FirstUse, Worth, MaskCards, And, Or, OnesCount, Pow2, OneAtOnce, Ascending,
         Scores, Untouched, AllGood, ValidPlay, Bit, Choice;
    var table := ReclaimAll(base, reclaims).value.table;
    var s, p, front := OpeningState(hand, discard, base, reclaims), PlayFor(reclaims, k), Choice(hand, reclaims);
    var named, part := PartCards(parts) + ReplacementCards(reclaims), multiset(parts[d].cards);
    OthersAre(base, table, parts, d);
    FitsEach(base, table, parts, d);
    var others := Others(parts, d);
    CardsApart(base, table, parts, others, parts[d]);
    ReplacementIs(hand, reclaims, k);
    PartAmong(named, PartCards(others), part, ReplacementCards(reclaims));
    PartCanBeHad(hand, discard, reclaims, k, part, named);
    rest := SelectCards(hand, discard, reclaims, k, part);
    c := Selection(Or(rest, Pow2(|front|)), parts[d].use);
    UsedForReclaim(hand, reclaims, k);
    FrontAndDiscard(hand, discard, reclaims, named);
    OthersCanBeHad(front, discard, p.used, rest, named, part, PartCards(others));
    SameFirstUse(base, parts[d].cards, MaskCards(s.hand, c.mask), c.use);
    choices := ChoicesAsPlay(s, table, p, c, parts, others, parts[d], |named|);
  }

  lemma PartAmong(named: multiset<Card>, others: multiset<Card>, part: multiset<Card>, replaced: multiset<Card>)
    requires named == others + part + replaced
    ensures part <= named && part + replaced <= named && |named| == |others| + |part| + |replaced|
  {
  }

  lemma CardsApart(base: seq<Comp>, table: seq<Comp>, parts: seq<Part>, o: seq<Part>, part: Part)
    requires AllOk(table) && AllFit(base, table, parts) && Good(table, part) && SetApart(base, table, parts, o, part)
    ensures PartCards(parts) == PartCards(o) + multiset(part.cards)
  {
    hide CompOk, AllFit, Good;
  }

  /** The choice for the part with the discard, followed by choices for the others. */
  lemma ChoicesAsPlay(s: SearchState, table: seq<Comp>, p: SearchPlay, c: Selection, parts: seq<Part>,
                      others: seq<Part>, part: Part, named: nat)
    returns (choices: seq<Selection>)
    requires AllOk(s.table) && AllOk(table) && AllFit(s.table, table, parts) && Good(table, part) && s.hand != []
    requires OneAtOnce(s.table, p.reclaims) && ReclaimAll(s.table, p.reclaims).Some? &&
             table == ReclaimAll(s.table, p.reclaims).value.table
    requires SetApart(s.table, table, parts, others, part) && AnyLaidPart(parts) && PartWorth(table, parts) >= 40
    requires Bare(p) && c.use == part.use && multiset(MaskCards(s.hand, c.mask)) == multiset(part.cards)
    requires var front := s.hand[..|s.hand| - 1];
             multiset(MaskCards(front, Or(p.used, c.mask))) + PartCards(others) <= multiset(front)
    requires OnesCount(Or(p.used, c.mask)) + |PartCards(others)| == named
    requires |s.hand| - named + |p.reclaims| - s.syntheticReclaims != 0
    ensures Ascending(s, Or(p.used, c.mask), 1, Pow2(|s.hand| - 1), choices)
    ensures ValidPlay(s, Extend(p, [c] + choices))
  {
    hide CompOk, ReclaimAll, AllFit, Good, FirstUse, Worth, MaskCards, And, Or, OnesCount, Pow2, OneAtOnce, Ascending,
         Scores, Untouched, AllGood, ValidPlay, AnyLaid, AnyLaidPart, Apart, PartsApart, PartTargets, PartCards;
    FitsAll(s.table, table, parts);
    choices := ChooseAll(s, table, Or(p.used, c.mask), others);
    SameWorth(table, part, PartOf(s.hand, c));
    ConsChoices(s.hand, table, c, choices);
    var all := [c] + choices;
    StartsEmpty(s, table, p, Targets(all));
    ScoresAll(s, table, p, 0, all);
    LaidChoice(parts, others, part, c, choices);
    WithUses(p, c);
    ExtendOnes(s, With(p, c), 1, Pow2(|s.hand| - 1), choices);
    assert all[1..] == choices;
    EnoughIsValid(s, table, Extend(p, all), PartWorth(table, parts));
  }

  lemma LaidChoice(parts: seq<Part>, others: seq<Part>, part: Part, c: Selection, choices: seq<Selection>)
    requires AnyLaidPart(others) || part.use.Lay?
    requires (AnyLaidPart(others) ==> AnyLaid(choices)) && c.use == part.use
    ensures AnyLaid(choices) || c.use.Lay?
  {
  }

  lemma ReplacementIs(hand: seq<Card>, reclaims: seq<JokerReclaim>, k: nat)
    requires |reclaims| <= 1 && (reclaims != [] ==> k < |hand| && hand[k] == reclaims[0].replacement)
    ensures ReplacementCards(reclaims) == if reclaims == [] then multiset{} else multiset{hand[k]}
    ensures |ReplacementCards(reclaims)| == |reclaims|
  {
    if reclaims != [] {
      assert reclaims == [reclaims[0]] && reclaims[..0] == [];
      assert ReplacementCards(reclaims) == multiset{reclaims[0].replacement};
    }
  }

  lemma FrontAndDiscard(hand: seq<Card>, discard: Card, reclaims: seq<JokerReclaim>, named: multiset<Card>)
    requires |reclaims| <= 1 && named <= multiset(hand) + multiset{discard} + Jokers(|reclaims|)
    ensures named <= multiset(Choice(hand, reclaims)) + multiset{discard}
  {
    assert Jokers(0) == multiset{} && Jokers(1) == multiset{Joker};
    var front := multiset(Choice(hand, reclaims));
    assert front == multiset(hand) + Jokers(|reclaims|);
    assert multiset(hand) + multiset{discard} + Jokers(|reclaims|) == front + multiset{discard};
  }

  lemma PartFits(base: seq<Comp>, table: seq<Comp>, parts: seq<Part>, d: nat, cards: seq<Card>)
    requires AllOk(table) && AllFit(base, table, parts) && d < |parts|
    requires multiset(cards) == multiset(parts[d].cards)
    ensures Good(table, parts[d]) && Good(table, Part(cards, parts[d].use))
    ensures Worth(table, Part(cards, parts[d].use)) == Worth(table, parts[d])
    ensures FirstUse(base, cards, parts[d].use)
  {
    hide Good, FirstUse, Worth, CompOk;
    SameWorth(table, parts[d], Part(cards, parts[d].use));
    SameFirstUse(base, parts[d].cards, cards, parts[d].use);
  }

  // ---------------------------------------------------------------- the search finds them

  /** A play of the discard that opens, makes at most one reclaim, and that at once, and uses its cards plainly. A
      joker the discard itself reclaims is not played again. */
  ghost predicate PlainOpening(hand: seq<Card>, discard: Card, table: seq<Comp>, comps: seq<Comp>,
                               additions: seq<Addition>, reclaims: seq<JokerReclaim>) {
    && AllOk(comps) && OneAtOnce(table, reclaims) && UsesCard(comps, additions, reclaims, discard)
    && ApplyTablePlay(TableState(hand + [discard], table, false), comps, additions, reclaims).Success?
    && PlainUses(table, comps, additions)
    && (reclaims != [] && reclaims[0].replacement == discard ==>
          TableCards(comps) + AdditionCards(additions) <= multiset(hand))
  }

  ghost predicate SomePlainOpening(hand: seq<Card>, discard: Card, table: seq<Comp>) {
    exists comps, additions, reclaims :: PlainOpening(hand, discard, table, comps, additions, reclaims)
  }

  lemma OpeningMoves(hand: seq<Card>, discard: Card, table: seq<Comp>, comps: seq<Comp>, additions: seq<Addition>,
                     reclaims: seq<JokerReclaim>)
    requires AllOk(table) && PlainOpening(hand, discard, table, comps, additions, reclaims)
    ensures TableMoves(table, additions, reclaims).Some? && comps != [] && |reclaims| <= 1
    ensures Gained(table, comps, additions, reclaims) >= 40
    ensures var named := Named(comps, additions, reclaims);
            discard in named && named <= multiset(hand) + multiset{discard} + Jokers(|reclaims|) &&
            |named| < |hand| + 1 + |reclaims|
  {
    hide CompOk, TableMoves, Layable, UsesCard, ApplyTablePlay, Named, Gained, PlainUses, TableCards, AdditionCards;
    var s := TableState(hand + [discard], table, false);
    PlayAnswer(s, comps, additions, reclaims);
    UsesCardIff(comps, additions, reclaims, discard);
    var named, held := Named(comps, additions, reclaims), InHand(s, reclaims);
    assert held == multiset(hand) + multiset{discard} + Jokers(|reclaims|);
    assert |Jokers(|reclaims|)| == |reclaims|;
    assert |held| == |hand| + 1 + |reclaims|;
    assert |held - named| > 0;
  }

  /** The parts of such a play. */
  lemma OpeningParts(table: seq<Comp>, comps: seq<Comp>, additions: seq<Addition>, reclaims: seq<JokerReclaim>)
    returns (parts: seq<Part>)
    requires AllOk(table) && AllOk(comps) && PlainUses(table, comps, additions) && OneAtOnce(table, reclaims)
    requires |reclaims| <= 1 && comps != [] && TableMoves(table, additions, reclaims).Some?
    requires Gained(table, comps, additions, reclaims) >= 40
    ensures ReclaimAll(table, reclaims).Some? && AllOk(ReclaimAll(table, reclaims).value.table)
    ensures var after := ReclaimAll(table, reclaims).value.table;
            && AllFit(table, after, parts) && PartsApart(parts) && AnyLaidPart(parts) && PartWorth(after, parts) >= 40
            && PartCards(parts) == TableCards(comps) + AdditionCards(additions)
  {
    hide CompOk, ReclaimAll, AddAll, PlainUses, Good, FirstUse, Worth, OneAtOnce, TableCards, AdditionCards,
         AnyLaidPart;
    MovesAtOnce(table, additions, reclaims);
    ReclaimAllKeeps(table, reclaims);
    var after := ReclaimAll(table, reclaims).value.table;
    parts := Parts(comps, additions, |table|);
    PartsAccount(table, reclaims, comps, additions, |table|);
    forall i | 0 <= i < |additions|
      ensures 0 <= additions[i].compositionIndex < |table|
    {
      AddedInRange(table, additions, reclaims, i);
    }
    AllAdded(additions, |table|);
    FitsAll(table, after, parts);
    WholeTable(table, comps, additions, reclaims);
  }

  lemma WholeTable(table: seq<Comp>, comps: seq<Comp>, additions: seq<Addition>, reclaims: seq<JokerReclaim>)
    requires AllOk(table) && AllOk(comps) && TableMoves(table, additions, reclaims).Some?
    requires ReclaimAll(table, reclaims).Some? && ReclaimAll(table, reclaims).value.deferred == []
    requires var t := ReclaimAll(table, reclaims).value.table;
             |t| == |table| && AllOk(t) && AddAll(Adding(t, [], [], 0), additions).Some?
    ensures var t := ReclaimAll(table, reclaims).value.table;
            var u := AddAll(Adding(t, [], [], 0), additions).value.table;
            |u| == |t| && AllOk(u) && u[..|table|] == u && t[..|table|] == t &&
            Gained(table, comps, additions, reclaims) == TablePoints(comps) + TablePoints(u) - TablePoints(t)
  {
    hide CompOk, ReclaimAll, AddAll, Points;
    AdditionsKeepSize(ReclaimAll(table, reclaims).value.table, additions);
  }

  /** What the failed search says of the state a play with these reclaims would be searched in. */
  lemma SearchedOpening(hand: seq<Card>, discard: Card, table: seq<Comp>, reclaims: seq<JokerReclaim>, k: nat)
    requires NothingUses(hand, discard, table, false) && OneAtOnce(table, reclaims)
    requires reclaims != [] ==> k < |hand| && hand[k] == reclaims[0].replacement
    ensures var bound := Pow2(|Choice(hand, reclaims)|);
            NoOpeningPlay(OpeningState(hand, discard, table, reclaims), PlayFor(reclaims, k), bound, bound)
  {
    hide NoDirectPlay, NoAdditionPlay, NoOpeningPlay, Pow2;
    if reclaims != [] {
      var r := reclaims[0];
      assert reclaims == [r] && r == JokerReclaim(r.compositionIndex, r.jokerIndex, hand[k]);
      assert NoReclaimPlay(hand, discard, table, false, r.compositionIndex, r.jokerIndex, k);
    }
  }

  lemma NotFound(s: SearchState, p: SearchPlay, bound: nat, rest: nat, c: Selection, choices: seq<Selection>)
    requires NoOpeningPlay(s, p, bound, bound) && rest < bound && c.mask == Or(rest, bound) && And(p.used, c.mask) == 0
    requires FirstUse(s.table, MaskCards(s.hand, c.mask), c.use) && Ascending(s, Or(p.used, c.mask), 1, bound, choices)
    ensures !ValidPlay(s, Extend(p, [c] + choices))
  {
    hide And, Or, MaskCards, Ascending, ValidPlay, FirstUse, Exhausted;
    assert MaskDone(s, p, c.mask, 1, bound);
    assert c == Selection(c.mask, c.use);
    OneDone(s, p, c, choices, 1, bound);
  }

  /** When the discard itself reclaims, the rest is chosen from the hand. */
  lemma ReclaimAndParts(hand: seq<Card>, discard: Card, table: seq<Comp>, reclaims: seq<JokerReclaim>, parts: seq<Part>)
    returns (choices: seq<Selection>)
    requires AllOk(table) && OneAtOnce(table, reclaims) && reclaims != [] && |reclaims| <= 1
    requires ReclaimAll(table, reclaims).Some? && AllOk(ReclaimAll(table, reclaims).value.table)
    requires var after := ReclaimAll(table, reclaims).value.table;
             AllFit(table, after, parts) && PartsApart(parts) && AnyLaidPart(parts) && PartWorth(after, parts) >= 40
    requires PartCards(parts) <= multiset(hand)
    ensures var s, p := BaseState(hand, discard, table, false), SearchPlay([], [], [], reclaims, Pow2(|hand|));
            choices != [] && Ascending(s, p.used, 1, Pow2(|hand|), choices) && ValidPlay(s, Extend(p, choices))
  {
    hide CompOk, ReclaimAll, AllFit, Good, FirstUse, Worth, MaskCards, OnesCount, Pow2, OneAtOnce, Ascending, Scores,
         Untouched, AllGood, ValidPlay, AnyLaidPart, Apart, PartsApart, PartTargets, PartCards;
    var after := ReclaimAll(table, reclaims).value.table;
    var s, p := BaseState(hand, discard, table, false), SearchPlay([], [], [], reclaims, Pow2(|hand|));
    assert s.hand[..|hand|] == hand;
    MaskCardsSingle(hand, |hand|);
    FitsAll(table, after, parts);
    choices := ChooseAll(s, after, p.used, parts);
    StartsEmpty(s, after, p, Targets(choices));
    ScoresAll(s, after, p, 0, choices);
    ExtendOnes(s, p, 1, Pow2(|hand|), choices);
    OneBit(|hand|);
    assert |PartCards(parts)| <= |hand| by {
      assert |multiset(hand) - PartCards(parts)| == |hand| - |PartCards(parts)|;
    }
    EnoughIsValid(s, after, Extend(p, choices), PartWorth(after, parts));
  }

  lemma SearchedDiscardReclaim(hand: seq<Card>, discard: Card, table: seq<Comp>, reclaims: seq<JokerReclaim>)
    requires NothingUses(hand, discard, table, false) && OneAtOnce(table, reclaims)
    requires reclaims != [] && reclaims[0].replacement == discard
    ensures Exhausted(BaseState(hand, discard, table, false), SearchPlay([], [], [], reclaims, Pow2(|hand|)), 1,
                      Pow2(|hand|))
  {
    hide NoDirectPlay, NoAdditionPlay, NoOpeningPlay, Pow2, ValidPlay, Exhausted;
    var r := reclaims[0];
    assert reclaims == [r] && r == JokerReclaim(r.compositionIndex, r.jokerIndex, discard);
    assert NoDiscardReclaim(hand, discard, table, false, r.compositionIndex, r.jokerIndex);
  }

  lemma NoPlainOpening(hand: seq<Card>, discard: Card, table: seq<Comp>, comps: seq<Comp>, additions: seq<Addition>,
                       reclaims: seq<JokerReclaim>)
    requires AllOk(table) && NothingUses(hand, discard, table, false)
    ensures !PlainOpening(hand, discard, table, comps, additions, reclaims)
  {
    hide NothingUses, CompOk, TableMoves, Named, TableCards, AdditionCards, ReplacementCards, ApplyTablePlay, UsesCard,
         ValidPlay, PlainUses, AllFit, Good, FirstUse, ReclaimAll, Gained, NoOpeningPlay, Exhausted, Ascending,
         AnyLaidPart, PartsApart;
    if PlainOpening(hand, discard, table, comps, additions, reclaims) {
      OpeningMoves(hand, discard, table, comps, additions, reclaims);
      var parts := OpeningParts(table, comps, additions, reclaims);
      if reclaims != [] && reclaims[0].replacement == discard {
        SearchedDiscardReclaim(hand, discard, table, reclaims);
        var choices := ReclaimAndParts(hand, discard, table, reclaims, parts);
        NotExhausted(BaseState(hand, discard, table, false), SearchPlay([], [], [], reclaims, Pow2(|hand|)),
                     Pow2(|hand|), choices);
      } else {
        NamedIs(comps, additions, reclaims, parts);
        NamedParts(comps, additions, reclaims, discard);
        var k := 0;
        if reclaims != [] {
          k := ReclaimingCard(hand, discard, table, reclaims, Named(comps, additions, reclaims));
        }
        var d := PartWith(parts, discard);
        var rest, c, choices := PartsAsPlay(hand, discard, table, reclaims, k, parts, d);
        SearchedOpening(hand, discard, table, reclaims, k);
        NotFound(OpeningState(hand, discard, table, reclaims), PlayFor(reclaims, k), Pow2(|Choice(hand, reclaims)|),
                 rest, c, choices);
      }
    }
  }

  lemma NotExhausted(s: SearchState, p: SearchPlay, bound: nat, choices: seq<Selection>)
    requires Exhausted(s, p, 1, bound) && choices != [] && Ascending(s, p.used, 1, bound, choices)
    ensures !ValidPlay(s, Extend(p, choices))
  {
    hide ValidPlay, Ascending;
  }

  lemma NamedIs(comps: seq<Comp>, additions: seq<Addition>, reclaims: seq<JokerReclaim>, parts: seq<Part>)
    requires PartCards(parts) == TableCards(comps) + AdditionCards(additions)
    ensures Named(comps, additions, reclaims) == PartCards(parts) + ReplacementCards(reclaims)
  {
  }

  /** Before opening, a plain play of the discard is always found. */
  lemma PlainOpeningsAreFound(hand: seq<Card>, discard: Card, table: seq<Comp>, ok: bool)
    requires AllOk(table) && (!ok ==> NothingUses(hand, discard, table, false))
    ensures SomePlainOpening(hand, discard, table) ==> ok
  {
    hide CompOk, NothingUses, PlainOpening;
    if !ok {
      forall comps, additions, reclaims
        ensures !PlainOpening(hand, discard, table, comps, additions, reclaims)
      {
        NoPlainOpening(hand, discard, table, comps, additions, reclaims);
      }
    }
  }
}
