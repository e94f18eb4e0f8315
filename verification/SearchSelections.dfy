/** Selections of cards as the discard search makes them: parts of a play get disjoint masks, in increasing order, and
    a list of such masks is a valid play when its parts are. */
module SearchSelections {
  import opened Cards
  import opened Compositions
  import opened TablePlay
  import opened Masks
  import opened SearchPlays
  import opened SearchChoices
  import opened DiscardSearch
  import opened DiscardComplete
  import opened PlayOutcomes

  /** Cards and what is done with them. */
  datatype Part = Part(cards: seq<Card>, use: Use)

  /** The part can be laid on, or added to, this table. */
  ghost predicate Good(table: seq<Comp>, part: Part) {
    part.cards != [] &&
    match part.use
    case Lay(variant) => ValidCards(variant, part.cards)
    case Add(ci) => Fits(table, part.cards, ci)
  }

  /** The points it brings. */
  ghost function Worth(table: seq<Comp>, part: Part): int
    requires AllOk(table) && Good(table, part)
  {
    match part.use
    case Lay(variant) => Points(variant, part.cards)
    case Add(ci) =>
      OkHasPoints(table[ci]);
      Points(table[ci].variant, Inserted(table[ci].cards, 0, part.cards)) - Points(table[ci].variant, table[ci].cards)
  }

  lemma SameFit(table: seq<Comp>, a: seq<Card>, b: seq<Card>, ci: nat)
    requires multiset(a) == multiset(b) && ci < |table|
    ensures Fits(table, a, ci) <==> Fits(table, b, ci)
    ensures Fits(table, a, ci) ==> Points(table[ci].variant, Inserted(table[ci].cards, 0, a)) ==
                                   Points(table[ci].variant, Inserted(table[ci].cards, 0, b))
  {
    hide ValidCards, Points;
    var v, x, y := table[ci].variant, Inserted(table[ci].cards, 0, a), Inserted(table[ci].cards, 0, b);
    InsertedCards(table[ci].cards, 0, a);
    InsertedCards(table[ci].cards, 0, b);
    if ValidCards(v, x) {
      PointsIgnoreOrder(v, x, y);
    }
    if ValidCards(v, y) {
      PointsIgnoreOrder(v, y, x);
    }
  }

  lemma SameValid(variant: Variant, a: seq<Card>, b: seq<Card>)
    requires multiset(a) == multiset(b)
    ensures ValidCards(variant, a) <==> ValidCards(variant, b)
    ensures ValidCards(variant, a) ==> Points(variant, a) == Points(variant, b)
  {
    hide ValidCards, Points;
    if ValidCards(variant, a) {
      PointsIgnoreOrder(variant, a, b);
    }
    if ValidCards(variant, b) {
      PointsIgnoreOrder(variant, b, a);
    }
  }

  /** Only the multiset of the cards matters. */
  lemma SameWorth(table: seq<Comp>, a: Part, b: Part)
    requires AllOk(table) && multiset(a.cards) == multiset(b.cards) && a.use == b.use
    ensures Good(table, a) <==> Good(table, b)
    ensures Good(table, a) ==> Worth(table, a) == Worth(table, b)
  {
    hide ValidCards, Points, Fits, CompOk;
    assert a.cards == [] <==> b.cards == [] by {
      assert |multiset(a.cards)| == |a.cards| && |multiset(b.cards)| == |b.cards|;
    }
    match a.use
    case Lay(variant) => SameValid(variant, a.cards, b.cards);
    case Add(ci) =>
      if ci < |table| {
        SameFit(table, a.cards, b.cards, ci);
      } else {
        BeyondTable(table, a.cards, ci);
        BeyondTable(table, b.cards, ci);
      }
  }

  lemma BeyondTable(table: seq<Comp>, cards: seq<Card>, ci: nat)
    requires ci >= |table|
    ensures !Fits(table, cards, ci)
  {
  }

  lemma SameFirstUse(table: seq<Comp>, a: seq<Card>, b: seq<Card>, use: Use)
    requires multiset(a) == multiset(b) && FirstUse(table, a, use)
    ensures FirstUse(table, b, use)
  {
    hide ValidCards, Fits;
    SameValid(Set, a, b);
    SameValid(Run, a, b);
    if use.Add? {
      forall j: nat | j <= use.compositionIndex
        ensures Fits(table, a, j) <==> Fits(table, b, j)
      {
        if j < |table| {
          SameFit(table, a, b, j);
        } else {
          BeyondTable(table, a, j);
          BeyondTable(table, b, j);
        }
      }
    }
  }

  // ---------------------------------------------------------------- lists of choices

  function PartOf(hand: seq<Card>, c: Selection): Part {
    Part(MaskCards(hand, c.mask), c.use)
  }

  ghost predicate AllGood(hand: seq<Card>, table: seq<Comp>, choices: seq<Selection>) {
    forall i :: 0 <= i < |choices| ==> Good(table, PartOf(hand, choices[i]))
  }

  ghost function TotalWorth(hand: seq<Card>, table: seq<Comp>, choices: seq<Selection>): int
    requires AllOk(table) && AllGood(hand, table, choices)
    decreases |choices|
  {
    if choices == [] then 0
    else Worth(table, PartOf(hand, choices[0])) + TotalWorth(hand, table, choices[1..])
  }

  function Ones(choices: seq<Selection>): nat
    decreases |choices|
  {
    if choices == [] then 0 else OnesCount(choices[0].mask) + Ones(choices[1..])
  }

  function Target(use: Use): set<nat> {
    match use case Lay(_) => {} case Add(ci) => {ci}
  }

  function Targets(choices: seq<Selection>): set<nat>
    decreases |choices|
  {
    if choices == [] then {} else Target(choices[0].use) + Targets(choices[1..])
  }

  /** No composition of the table is added to twice. */
  predicate Apart(choices: seq<Selection>)
    decreases |choices|
  {
    choices == [] || (Target(choices[0].use) !! Targets(choices[1..]) && Apart(choices[1..]))
  }

  /** The choice in its place by mask. */
  function Insert(c: Selection, choices: seq<Selection>): seq<Selection>
    decreases |choices|
  {
    if choices == [] || c.mask <= choices[0].mask then [c] + choices
    else [choices[0]] + Insert(c, choices[1..])
  }

  lemma {:induction false} InsertKeeps(hand: seq<Card>, table: seq<Comp>, c: Selection, choices: seq<Selection>)
    requires AllOk(table) && AllGood(hand, table, choices) && Good(table, PartOf(hand, c))
    requires Apart(choices) && Target(c.use) !! Targets(choices)
    ensures var r := Insert(c, choices);
            && AllGood(hand, table, r) && Apart(r) && |r| == |choices| + 1
            && TotalWorth(hand, table, r) == Worth(table, PartOf(hand, c)) + TotalWorth(hand, table, choices)
            && Ones(r) == OnesCount(c.mask) + Ones(choices) && Targets(r) == Target(c.use) + Targets(choices)
            && multiset(r) == multiset(choices) + multiset{c}
    decreases |choices|
  {
    hide Good, Worth, CompOk, MaskCards, OnesCount;
    if choices == [] || c.mask <= choices[0].mask {
      assert ([c] + choices)[1..] == choices;
    } else {
      var head, rest := choices[0], choices[1..];
      assert choices == [head] + rest;
      InsertKeeps(hand, table, c, rest);
      assert ([head] + Insert(c, rest))[1..] == Insert(c, rest);
    }
  }

  lemma {:induction false} OrCommutes(a: nat, b: nat)
    ensures Or(a, b) == Or(b, a)
  {
    if a != 0 && b != 0 {
      OrCommutes(a / 2, b / 2);
    }
  }

  lemma {:induction false} OrSwaps(a: nat, b: nat, c: nat)
    ensures Or(Or(a, b), c) == Or(Or(a, c), b)
  {
    if a == 0 {
      OrCommutes(b, c);
    } else if b != 0 && c != 0 {
      HalfOr(a, b);
      HalfOr(a, c);
      OrSwaps(a / 2, b / 2, c / 2);
    }
  }

  lemma HalfOr(a: nat, b: nat)
    ensures Or(a, b) / 2 == Or(a / 2, b / 2)
    ensures Or(a, b) % 2 == if a % 2 == 1 || b % 2 == 1 then 1 else 0
  {
  }

  lemma {:induction false} AndOr(a: nat, b: nat, c: nat)
    ensures And(Or(a, b), c) == 0 <==> And(a, c) == 0 && And(b, c) == 0
  {
    if a != 0 && b != 0 && c != 0 {
      HalfOr(a, b);
      AndOr(a / 2, b / 2, c / 2);
    }
  }

  lemma {:induction false} AndSelf(a: nat)
    ensures And(a, a) == a
  {
    if a != 0 {
      AndSelf(a / 2);
    }
  }

  lemma {:induction false} AndCommutes(a: nat, b: nat)
    ensures And(a, b) == And(b, a)
  {
    if a != 0 && b != 0 {
      AndCommutes(a / 2, b / 2);
    }
  }

  lemma {:induction false} InsertAscends(s: SearchState, used: nat, start: nat, bound: nat, c: Selection,
                                         choices: seq<Selection>)
    requires Ascending(s, Or(used, c.mask), start, bound, choices)
    requires And(used, c.mask) == 0 && 0 < c.mask && start <= c.mask < bound
    requires FirstUse(s.table, MaskCards(s.hand, c.mask), c.use)
    ensures Ascending(s, used, start, bound, Insert(c, choices))
    decreases |choices|
  {
    hide FirstUse, And, Or, MaskCards;
    if choices == [] {
      assert Insert(c, choices)[1..] == [];
    } else {
      var head, rest := choices[0], choices[1..];
      AndOr(used, c.mask, head.mask);
      AndSelf(c.mask);
      if c.mask <= head.mask {
        assert ([c] + choices)[1..] == choices;
        Raised(s, Or(used, c.mask), start, c.mask + 1, bound, choices);
      } else {
        OrSwaps(used, c.mask, head.mask);
        AndOr(used, head.mask, c.mask);
        AndCommutes(c.mask, head.mask);
        InsertAscends(s, Or(used, head.mask), head.mask + 1, bound, c, rest);
        assert ([head] + Insert(c, rest))[1..] == Insert(c, rest);
      }
    }
  }

  lemma Raised(s: SearchState, used: nat, start: nat, higher: nat, bound: nat, choices: seq<Selection>)
    requires Ascending(s, used, start, bound, choices) && (choices != [] ==> higher <= choices[0].mask)
    ensures Ascending(s, used, higher, bound, choices)
  {
    hide FirstUse, And, Or, MaskCards;
  }

  // ---------------------------------------------------------------- choosing disjoint masks

  lemma SelectedLast(cards: seq<Card>, used: nat)
    requires cards != []
    ensures var n := |cards| - 1;
            multiset(MaskCards(cards, used)) ==
            multiset(MaskCards(cards[..n], used)) + if Bit(used, n) then multiset{cards[n]} else multiset{}
  {
    hide Bit;
  }

  /** What is left to choose from the cards before the last. */
  function WithoutLastOf(wanted: multiset<Card>, used: nat, cards: seq<Card>): multiset<Card>
    requires cards != []
  {
    var n := |cards| - 1;
    if !Bit(used, n) && cards[n] in wanted then wanted - multiset{cards[n]} else wanted
  }

  lemma StillBeside(cards: seq<Card>, used: nat, wanted: multiset<Card>)
    requires cards != [] && multiset(MaskCards(cards, used)) + wanted <= multiset(cards)
    ensures var front := cards[..|cards| - 1];
            multiset(MaskCards(front, used)) + WithoutLastOf(wanted, used, cards) <= multiset(front)
  {
    hide Bit, MaskCards;
    var n := |cards| - 1;
    var front, last := cards[..n], cards[n];
    LastOf(cards);
    SelectedLast(cards, used);
    MaskCardsSubset(front, used);
    if Bit(used, n) {
      Beside(multiset(MaskCards(front, used)), wanted, multiset(front), last);
    } else if last in wanted {
      TakeLast(multiset(MaskCards(front, used)), wanted, multiset(front), last);
    } else {
      SkipLast(multiset(MaskCards(front, used)), wanted, multiset(front), last);
    }
  }

  /** Cards beside those of another mask can be chosen by a disjoint mask. */
  lemma {:induction false} ChooseBeside(cards: seq<Card>, used: nat, wanted: multiset<Card>) returns (mask: nat)
    requires multiset(MaskCards(cards, used)) + wanted <= multiset(cards)
    ensures mask < Pow2(|cards|) && multiset(MaskCards(cards, mask)) == wanted && And(used, mask) == 0
  {
    hide Or, And, Bit, MaskCards, Pow2;
    if cards == [] {
      mask := 0;
      NothingCommon(used);
      NoCards(cards);
    } else {
      var n := |cards| - 1;
      StillBeside(cards, used, wanted);
      var rest := ChooseBeside(cards[..n], used, WithoutLastOf(wanted, used, cards));
      if !Bit(used, n) && cards[n] in wanted {
        ChooseLast(cards, rest);
        mask := Or(rest, Pow2(n));
        NewBit(used, rest, n);
        assert wanted - multiset{cards[n]} + multiset{cards[n]} == wanted;
      } else {
        mask := rest;
        NotLast(cards, mask);
      }
    }
  }

  lemma NothingCommon(used: nat)
    ensures And(used, 0) == 0
  {
  }

  lemma NewBit(used: nat, rest: nat, n: nat)
    requires And(used, rest) == 0 && !Bit(used, n)
    ensures And(used, Or(rest, Pow2(n))) == 0
  {
    hide And, Or, Bit;
    NoBit(used, n);
    AndCommutes(Pow2(n), used);
    AndCommutes(used, rest);
    AndOr(rest, Pow2(n), used);
    AndCommutes(Pow2(n), used);
    AndCommutes(used, Or(rest, Pow2(n)));
  }

  lemma Beside(u: multiset<Card>, wanted: multiset<Card>, front: multiset<Card>, last: Card)
    requires u + multiset{last} + wanted <= front + multiset{last}
    ensures u + wanted <= front
  {
    var a, b, d := u + multiset{last} + wanted, front + multiset{last}, u + wanted;
    forall x: Card
      ensures d[x] <= front[x]
    {
      assert a[x] <= b[x];
    }
  }

  lemma TakeLast(u: multiset<Card>, wanted: multiset<Card>, front: multiset<Card>, last: Card)
    requires u + wanted <= front + multiset{last} && last in wanted
    ensures u + (wanted - multiset{last}) <= front
  {
    var a, b, d := u + wanted, front + multiset{last}, u + (wanted - multiset{last});
    forall x: Card
      ensures d[x] <= front[x]
    {
      assert a[x] <= b[x];
    }
  }

  lemma SkipLast(u: multiset<Card>, wanted: multiset<Card>, front: multiset<Card>, last: Card)
    requires u + wanted <= front + multiset{last} && last !in wanted && u <= front
    ensures u + wanted <= front
  {
    var a, b := u + wanted, front + multiset{last};
    forall x: Card
      ensures a[x] <= front[x]
    {
      assert a[x] <= b[x] && u[x] <= front[x];
    }
  }

  // ---------------------------------------------------------------- parts and their masks

  ghost predicate AllFit(base: seq<Comp>, table: seq<Comp>, parts: seq<Part>) {
    forall i :: 0 <= i < |parts| ==> Good(table, parts[i]) && FirstUse(base, parts[i].cards, parts[i].use)
  }

  function PartCards(parts: seq<Part>): multiset<Card> {
    if parts == [] then multiset{}
    else PartCards(parts[..|parts| - 1]) + multiset(parts[|parts| - 1].cards)
  }

  ghost function PartWorth(table: seq<Comp>, parts: seq<Part>): int
    requires AllOk(table) && forall i :: 0 <= i < |parts| ==> Good(table, parts[i])
  {
    if parts == [] then 0
    else
      var k := |parts| - 1;
      PartWorth(table, parts[..k]) + Worth(table, parts[k])
  }

  function PartTargets(parts: seq<Part>): set<nat> {
    if parts == [] then {}
    else PartTargets(parts[..|parts| - 1]) + Target(parts[|parts| - 1].use)
  }

  predicate PartsApart(parts: seq<Part>) {
    parts == [] ||
    (var k := |parts| - 1;
     Target(parts[k].use) !! PartTargets(parts[..k]) && PartsApart(parts[..k]))
  }

  predicate AnyLaid(choices: seq<Selection>) {
    exists i :: 0 <= i < |choices| && choices[i].use.Lay?
  }

  predicate AnyLaidPart(parts: seq<Part>) {
    exists i :: 0 <= i < |parts| && parts[i].use.Lay?
  }

  /** These choices carry out these parts. */
  ghost predicate CarryOut(s: SearchState, table: seq<Comp>, parts: seq<Part>, choices: seq<Selection>)
    requires AllOk(table) && AllFit(s.table, table, parts)
  {
    && AllGood(s.hand, table, choices) && Apart(choices)
    && TotalWorth(s.hand, table, choices) == PartWorth(table, parts)
    && Ones(choices) == |PartCards(parts)| && Targets(choices) == PartTargets(parts)
    && (AnyLaidPart(parts) ==> AnyLaid(choices)) && |choices| == |parts|
  }

  lemma LaidStays(c: Selection, choices: seq<Selection>, more: seq<Selection>)
    requires multiset(more) == multiset(choices) + multiset{c}
    ensures AnyLaid(choices) || c.use.Lay? ==> AnyLaid(more)
  {
    if i :| 0 <= i < |choices| && choices[i].use.Lay? {
      assert choices[i] in multiset(more);
    }
    if c.use.Lay? {
      assert c in multiset(more);
    }
  }

  lemma LaidFrontOrLast(parts: seq<Part>)
    requires parts != [] && AnyLaidPart(parts)
    ensures AnyLaidPart(parts[..|parts| - 1]) || parts[|parts| - 1].use.Lay?
  {
    var k := |parts| - 1;
    var i :| 0 <= i < |parts| && parts[i].use.Lay?;
    assert i < k ==> parts[..k][i].use.Lay?;
  }

  lemma FrontFits(base: seq<Comp>, table: seq<Comp>, parts: seq<Part>)
    requires AllFit(base, table, parts) && parts != []
    ensures AllFit(base, table, parts[..|parts| - 1])
    ensures var part := parts[|parts| - 1]; part.cards != [] && FirstUse(base, part.cards, part.use)
  {
    hide ValidCards, Fits, FirstUse;
  }

  lemma LastBeside(u: multiset<Card>, rest: multiset<Card>, last: multiset<Card>, all: multiset<Card>)
    requires u + (rest + last) <= all
    ensures u + last <= all && u + last + rest <= all
  {
    assert u + last + rest == u + (rest + last);
    assert u + last <= u + last + rest;
  }

  /** One more part, put in its place. */
  lemma CarryOutMore(s: SearchState, table: seq<Comp>, parts: seq<Part>, c: Selection, choices: seq<Selection>)
    requires AllOk(table) && parts != [] && AllFit(s.table, table, parts) && PartsApart(parts)
    requires AllFit(s.table, table, parts[..|parts| - 1])
    requires var k := |parts| - 1;
             CarryOut(s, table, parts[..k], choices) && c.use == parts[k].use &&
             multiset(MaskCards(s.hand, c.mask)) == multiset(parts[k].cards) && OnesCount(c.mask) == |parts[k].cards|
    ensures CarryOut(s, table, parts, Insert(c, choices))
  {
    hide Good, Worth, FirstUse, CompOk, MaskCards, OnesCount;
    var k := |parts| - 1;
    SameWorth(table, parts[k], PartOf(s.hand, c));
    InsertKeeps(s.hand, table, c, choices);
    LaidStays(c, choices, Insert(c, choices));
    if AnyLaidPart(parts) {
      LaidFrontOrLast(parts);
    }
  }

  lemma MaskFor(s: SearchState, used: nat, cards: seq<Card>) returns (mask: nat)
    requires s.hand != [] && cards != []
    requires var front := s.hand[..|s.hand| - 1]; multiset(MaskCards(front, used)) + multiset(cards) <= multiset(front)
    ensures 0 < mask < Pow2(|s.hand| - 1) && And(used, mask) == 0 && OnesCount(mask) == |cards|
    ensures multiset(MaskCards(s.hand, mask)) == multiset(cards)
    ensures var front := s.hand[..|s.hand| - 1];
            multiset(MaskCards(front, Or(used, mask))) == multiset(MaskCards(front, used)) + multiset(cards)
  {
    hide And, Or, MaskCards, OnesCount, Pow2;
    var front := s.hand[..|s.hand| - 1];
    mask := ChooseBeside(front, used, multiset(cards));
    DisjointMasksAdd(front, used, mask);
    MaskCardsCount(front, mask);
    NotLast(s.hand, mask);
    assert |multiset(MaskCards(front, mask))| == |MaskCards(front, mask)| && |multiset(cards)| == |cards|;
    NoCards(front);
  }

  /** Parts that can be had beside the cards of `used`, the last card aside, are carried out by ascending choices. */
  lemma {:induction false} ChooseAll(s: SearchState, table: seq<Comp>, used: nat, parts: seq<Part>)
    returns (choices: seq<Selection>)
    requires AllOk(table) && AllFit(s.table, table, parts) && PartsApart(parts) && s.hand != []
    requires var front := s.hand[..|s.hand| - 1];
             multiset(MaskCards(front, used)) + PartCards(parts) <= multiset(front)
    ensures Ascending(s, used, 1, Pow2(|s.hand| - 1), choices) && CarryOut(s, table, parts, choices)
    decreases |parts|
  {
    hide Good, Worth, FirstUse, CompOk, MaskCards, OnesCount, And, Or, Pow2, CarryOut, Ascending;
    if parts == [] {
      choices := [];
      NothingToDo(s, table, used);
    } else {
      var k, front := |parts| - 1, s.hand[..|s.hand| - 1];
      FrontFits(s.table, table, parts);
      LastBeside(multiset(MaskCards(front, used)), PartCards(parts[..k]), multiset(parts[k].cards), multiset(front));
      var mask := MaskFor(s, used, parts[k].cards);
      var rest := ChooseAll(s, table, Or(used, mask), parts[..k]);
      var c := Selection(mask, parts[k].use);
      SameFirstUse(s.table, parts[k].cards, MaskCards(s.hand, mask), c.use);
      InsertAscends(s, used, 1, Pow2(|s.hand| - 1), c, rest);
      CarryOutMore(s, table, parts, c, rest);
      choices := Insert(c, rest);
    }
  }

  lemma NothingToDo(s: SearchState, table: seq<Comp>, used: nat)
    requires AllOk(table) && s.hand != []
    ensures Ascending(s, used, 1, Pow2(|s.hand| - 1), []) && CarryOut(s, table, [], [])
  {
  }

  // ---------------------------------------------------------------- choices as plays

  ghost function AddedUp(s: SearchState, table: seq<Comp>, p: SearchPlay): Option<Adding> {
    AddAll(Adding(table, [], [], 0), AdditionsOf(s.hand, p.additions))
  }

  /** The selections are valid on the table and score the points. */
  ghost predicate Scores(s: SearchState, table: seq<Comp>, p: SearchPlay, points: int) {
    && MasksValid(s.hand, p.masks, p.variants)
    && (var a := AddedUp(s, table, p);
        a.Some? && |a.value.table| == |table| && AllOk(a.value.table) &&
        MaskPoints(s.hand, p.masks, p.variants) + a.value.points == points)
  }

  ghost predicate Untouched(s: SearchState, table: seq<Comp>, p: SearchPlay, targets: set<nat>)
    requires AddedUp(s, table, p).Some?
  {
    var after := AddedUp(s, table, p).value.table;
    forall ci :: ci in targets && ci < |table| && ci < |after| ==> after[ci] == table[ci]
  }

  lemma ScoresLaid(s: SearchState, table: seq<Comp>, p: SearchPlay, points: int, c: Selection)
    requires AllOk(table) && Scores(s, table, p, points) && c.use.Lay? && Good(table, PartOf(s.hand, c))
    ensures Scores(s, table, With(p, c), points + Worth(table, PartOf(s.hand, c)))
    ensures AddedUp(s, table, With(p, c)) == AddedUp(s, table, p)
  {
    hide CompOk, ValidCards, Points, AddAll, MaskCards;
    var q := With(p, c);
    assert q.masks[..|p.masks|] == p.masks && q.variants[..|p.variants|] == p.variants;
  }

  lemma AddedUpMore(s: SearchState, table: seq<Comp>, p: SearchPlay, c: Selection)
    requires c.use.Add? && AddedUp(s, table, p).Some?
    ensures AddedUp(s, table, With(p, c)) ==
            AddStep(AddedUp(s, table, p).value, Addition(c.use.compositionIndex, Some(0), MaskCards(s.hand, c.mask)))
  {
    hide AddStep, MaskCards;
    var adds := AdditionsOf(s.hand, With(p, c).additions);
    assert adds[..|adds| - 1] == AdditionsOf(s.hand, p.additions);
  }

  lemma ScoresAdded(s: SearchState, table: seq<Comp>, p: SearchPlay, points: int, c: Selection)
    requires AllOk(table) && Scores(s, table, p, points) && c.use.Add? && Good(table, PartOf(s.hand, c))
    requires Untouched(s, table, p, Target(c.use))
    ensures Scores(s, table, With(p, c), points + Worth(table, PartOf(s.hand, c)))
    ensures forall targets :: Untouched(s, table, p, targets) && targets !! Target(c.use) ==>
              Untouched(s, table, With(p, c), targets)
  {
    hide CompOk, ValidCards, Points, AddAll, MaskCards, MakeComp;
    AddedUpMore(s, table, p, c);
    var a, ci, cards := AddedUp(s, table, p).value, c.use.compositionIndex, MaskCards(s.hand, c.mask);
    var x := Addition(ci, Some(0), cards);
    assert a.table[ci] == table[ci];
    AdditionIff(a, x);
    var inserted := Inserted(table[ci].cards, 0, cards);
    MakeCompOk(inserted, table[ci].variant, false);
    var extended := WithInsertedCards(table[ci], 0, cards).value;
    PointsIgnoreOrder(table[ci].variant, inserted, extended.cards);
    OkHasPoints(table[ci]);
    OkHasPoints(extended);
    assert AddStep(a, x).value.table == a.table[ci := extended];
  }

  /** Carrying out all choices scores all they are worth. */
  lemma {:induction false} ScoresAll(s: SearchState, table: seq<Comp>, p: SearchPlay, points: int,
                                     choices: seq<Selection>)
    requires AllOk(table) && Scores(s, table, p, points) && AllGood(s.hand, table, choices) && Apart(choices)
    requires Untouched(s, table, p, Targets(choices))
    ensures Scores(s, table, Extend(p, choices), points + TotalWorth(s.hand, table, choices))
    ensures Extend(p, choices).reclaims == p.reclaims
    ensures p.masks != [] || AnyLaid(choices) ==> Extend(p, choices).masks != []
    decreases |choices|
  {
    hide CompOk, Scores, Good, Worth, MaskCards, AddedUp;
    if choices != [] {
      var c, rest := choices[0], choices[1..];
      HasTable(s, table, p, points);
      Parted(s, table, p, Target(c.use), Targets(rest));
      if c.use.Lay? {
        ScoresLaid(s, table, p, points, c);
      } else {
        ScoresAdded(s, table, p, points, c);
      }
      RestGood(s.hand, table, choices);
      HasTable(s, table, With(p, c), points + Worth(table, PartOf(s.hand, c)));
      ScoresAll(s, table, With(p, c), points + Worth(table, PartOf(s.hand, c)), rest);
      if AnyLaid(choices) && !c.use.Lay? {
        var i :| 0 <= i < |choices| && choices[i].use.Lay?;
        assert rest[i - 1].use.Lay?;
      }
    }
  }

  lemma HasTable(s: SearchState, table: seq<Comp>, p: SearchPlay, points: int)
    requires Scores(s, table, p, points)
    ensures AddedUp(s, table, p).Some?
  {
  }

  lemma Parted(s: SearchState, table: seq<Comp>, p: SearchPlay, a: set<nat>, b: set<nat>)
    requires AddedUp(s, table, p).Some? && Untouched(s, table, p, a + b)
    ensures Untouched(s, table, p, a) && Untouched(s, table, p, b)
  {
  }

  lemma RestGood(hand: seq<Card>, table: seq<Comp>, choices: seq<Selection>)
    requires AllGood(hand, table, choices) && choices != []
    ensures Good(table, PartOf(hand, choices[0])) && AllGood(hand, table, choices[1..])
  {
    hide Good, MaskCards;
  }

  lemma {:induction false} ExtendOnes(s: SearchState, p: SearchPlay, start: nat, bound: nat, choices: seq<Selection>)
    requires Ascending(s, p.used, start, bound, choices)
    ensures OnesCount(Extend(p, choices).used) == OnesCount(p.used) + Ones(choices)
    decreases |choices|
  {
    hide FirstUse, And, Or, OnesCount, MaskCards;
    if choices != [] {
      DisjointOnes(p.used, choices[0].mask);
      WithUses(p, choices[0]);
      ExtendOnes(s, With(p, choices[0]), choices[0].mask + 1, bound, choices[1..]);
    }
  }

  /** Selections that score enough, on the table as immediate reclaims leave it, are what validation accepts. */
  lemma EnoughIsValid(s: SearchState, table: seq<Comp>, p: SearchPlay, points: int)
    requires AllOk(s.table) && OneAtOnce(s.table, p.reclaims) && ReclaimAll(s.table, p.reclaims).Some?
    requires table == ReclaimAll(s.table, p.reclaims).value.table && Scores(s, table, p, points)
    requires points >= OPENING_POINTS && p.masks != [] && LeavesCard(s, p)
    ensures ValidPlay(s, p)
  {
    hide CompOk, MaskPoints, MasksValid, AddAll, ReclaimAll, AdditionsOf, OnesCount;
    MovesAtOnce(s.table, AdditionsOf(s.hand, p.additions), p.reclaims);
  }
}
