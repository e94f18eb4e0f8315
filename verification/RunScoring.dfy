/** Points of a run: the source scores two readings of the aces and keeps the better;
    that is the best value any admissible placement of the cards can have. */
module RunScoring {
  import opened Cards
  import opened RunSpec
  import opened RunFitting
  import opened RunFilling

  function PositionValue(p: int): nat
    requires 1 <= p <= 14
  {
    RankPoints(RankAt(p), p == 1)
  }

  /** The value of the n positions from `start`. */
  function WindowValue(start: int, n: nat): nat
    requires 1 <= start && start + n <= 15
  {
    if n == 0 then 0 else WindowValue(start, n - 1) + PositionValue(start + n - 1)
  }

  lemma {:induction false} HigherWindowsScoreMore(low: int, high: int, n: nat)
    requires 1 <= low <= high && high + n <= 15
    ensures WindowValue(low, n) <= WindowValue(high, n)
  {
    if n > 0 {
      HigherWindowsScoreMore(low, high, n - 1);
    }
  }

  // ---------------------------------------------------------------- the declarative best total

  ghost predicate Admissible(m: multiset<Card>, start: int, n: int) {
    exists suit :: Admits(m, suit, start, n)
  }

  lemma RunIffAdmissible(cards: seq<Card>)
    ensures IsRun(cards) <==> 3 <= |cards| <= 14 && exists s :: Admissible(multiset(cards), s, |cards|)
  {
    RunIffAdmitted(cards);
    if IsRun(cards) {
      var suit, s :| Admits(multiset(cards), suit, s, |cards|);
      assert Admissible(multiset(cards), s, |cards|);
    }
  }

  ghost function HighestStart(m: multiset<Card>, s: nat, n: nat): (r: nat)
    ensures r <= s && (r > 0 ==> Admissible(m, r, n))
    ensures forall x :: r < x <= s ==> !Admissible(m, x, n)
  {
    if s == 0 then 0 else if Admissible(m, s, n) then s else HighestStart(m, s - 1, n)
  }

  ghost function BestOf(m: multiset<Card>, n: nat): nat
    requires n <= 14
  {
    var start := HighestStart(m, 15 - n, n);
    if start == 0 then 0 else WindowValue(start, n)
  }

  /** BestOf is attained by an admissible window and no admissible window is worth more. */
  lemma BestOfIsMaximum(m: multiset<Card>, n: nat, s: int)
    requires n <= 14 && Admissible(m, s, n)
    ensures exists start :: Admissible(m, start, n) && WindowValue(start, n) == BestOf(m, n)
    ensures forall start :: Admissible(m, start, n) ==> WindowValue(start, n) <= BestOf(m, n)
  {
    var top := HighestStart(m, 15 - n, n);
    assert Admissible(m, top, n);
    forall start | Admissible(m, start, n)
      ensures WindowValue(start, n) <= BestOf(m, n)
    {
      HigherWindowsScoreMore(start, top, n);
    }
  }

  ghost function BestTotal(cards: seq<Card>): nat
    requires |cards| <= 14
  {
    BestOf(multiset(cards), |cards|)
  }

  /** Of all ways to place the cards of a run, BestTotal is the most valuable one. */
  lemma BestTotalIsMaximum(cards: seq<Card>)
    requires IsRun(cards)
    ensures exists a, suit, start ::
              ArrangesAt(cards, a, suit, start) && start + |cards| <= 15 && WindowValue(start,
                         |cards|) == BestTotal(cards)
    ensures forall a, suit, start :: ArrangesAt(cards, a, suit, start) ==>
              start + |cards| <= 15 && WindowValue(start, |cards|) <= BestTotal(cards)
  {
    var m, n := multiset(cards), |cards|;
    RunIffAdmitted(cards);
    var suit, s :| Admits(m, suit, s, n);
    BestOfIsMaximum(m, n, s);
    var start :| Admissible(m, start, n) && WindowValue(start, n) == BestTotal(cards);
    var suit' :| Admits(m, suit', start, n);
    AdmitsIffArranges(cards, suit', start);
    forall a, suit, start | ArrangesAt(cards, a, suit, start)
      ensures start + n <= 15 && WindowValue(start, n) <= BestTotal(cards)
    {
      SameMultisetSameLength(a, cards);
      AdmitsIffArranges(cards, suit, start);
      assert Admissible(m, start, n);
    }
  }

  /** The order of the cards plays no part in the best total. */
  lemma BestTotalIgnoresOrder(cards: seq<Card>, other: seq<Card>)
    requires |cards| <= 14 && multiset(cards) == multiset(other)
    ensures |other| == |cards| && BestTotal(other) == BestTotal(cards)
  {
    SameMultisetSameLength(cards, other);
  }

  /** Nor do the jokers. */
  lemma BestOfByNaturals(m: multiset<Card>, m': multiset<Card>, n: nat)
    requires n <= 14 && m[Joker := 0] == m'[Joker := 0]
    ensures BestOf(m, n) == BestOf(m', n)
  {
    forall s
      ensures Admissible(m, s, n) <==> Admissible(m', s, n)
    {
      forall suit
        ensures Admits(m', suit, s, n) <==> Admits(m, suit, s, n)
      {
        AdmitsByNaturals(m, m', suit, s, n);
      }
    }
    SameHighest(m, m', 15 - n, n);
  }

  lemma {:induction false} SameHighest(m: multiset<Card>, m': multiset<Card>, s: nat, n: nat)
    requires forall x :: Admissible(m, x, n) <==> Admissible(m', x, n)
    ensures HighestStart(m, s, n) == HighestStart(m', s, n)
  {
    if s > 0 {
      SameHighest(m, m', s - 1, n);
    }
  }

  // ---------------------------------------------------------------- summing positions

  function ValueSum(s: seq<int>): nat
    requires forall i :: 0 <= i < |s| ==> 1 <= s[i] <= 14
  {
    if s == [] then 0 else ValueSum(s[..|s| - 1]) + PositionValue(s[|s| - 1])
  }

  lemma {:induction false} ValueSumSplit(a: seq<int>, b: seq<int>)
    requires forall i :: 0 <= i < |a| ==> 1 <= a[i] <= 14
    requires forall i :: 0 <= i < |b| ==> 1 <= b[i] <= 14
    ensures ValueSum(a + b) == ValueSum(a) + ValueSum(b)
  {
    if b == [] {
      assert a + b == a;
    } else {
      var k := |b| - 1;
      ValueSumSplit(a, b[..k]);
      assert (a + b)[..|a + b| - 1] == a + b[..k];
    }
  }

  ghost predicate CountsWindow(s: seq<int>, lo: int, k: int) {
    forall p :: multiset(s)[p] == if lo <= p < lo + k then 1 else 0
  }

  lemma ValueSumRemove(a: seq<int>, p: int, b: seq<int>)
    requires forall i :: 0 <= i < |a| ==> 1 <= a[i] <= 14
    requires forall i :: 0 <= i < |b| ==> 1 <= b[i] <= 14
    requires 1 <= p <= 14
    ensures ValueSum(a + [p] + b) == ValueSum(a + b) + PositionValue(p)
  {
    ValueSumSplit(a, b);
    ValueSumSplit(a, [p]);
    ValueSumSplit(a + [p], b);
    assert [p][..0] == [];
  }

  /** Take the topmost position out of a list that fills a window. */
  lemma RemoveLast(s: seq<int>, lo: int, k: nat) returns (a: seq<int>, b: seq<int>)
    requires CountsWindow(s, lo, k + 1)
    ensures s == a + [lo + k] + b && CountsWindow(a + b, lo, k)
  {
    assert multiset(s)[lo + k] == 1;
    var i :| 0 <= i < |s| && s[i] == lo + k;
    a, b := s[..i], s[i + 1..];
    assert s == a + [lo + k] + b;
    forall p
      ensures multiset(a + b)[p] == if lo <= p < lo + k then 1 else 0
    {
      assert multiset(s)[p] == multiset(a + b)[p] + multiset{lo + k}[p];
    }
  }

  predicate Positioned(s: seq<int>) {
    forall i :: 0 <= i < |s| ==> 1 <= s[i] <= 14
  }

  /** A list that holds every position of a window once is worth the window. */
  lemma {:induction false} ValueSumOfWindow(s: seq<int>, lo: int, k: nat)
    requires 1 <= lo && lo + k <= 15 && Positioned(s) && CountsWindow(s, lo, k)
    ensures ValueSum(s) == WindowValue(lo, k)
    decreases k
  {
    if k == 0 {
      assert s == [] by {
        assert forall x :: x in s ==> multiset(s)[x] >= 1;
      }
    } else {
      var a, b := RemoveLast(s, lo, k - 1);
      assert Positioned(a) by { forall i | 0 <= i < |a| ensures 1 <= a[i] <= 14 { assert a[i] == s[i]; } }
      assert Positioned(b) by { forall i | 0 <= i < |b| ensures 1 <= b[i] <= 14 { assert b[i] == s[i + |a| + 1]; } }
      ValueSumOfWindow(a + b, lo, k - 1);
      ValueSumRemove(a, lo + k - 1, b);
    }
  }

  // ---------------------------------------------------------------- summing cards

  function NonAceTotal(cards: seq<Card>): nat {
    if cards == [] then 0
    else
      var rank := RankField(cards[|cards| - 1]);
      NonAceTotal(cards[..|cards| - 1]) + (if rank == ACE then 0 else RankPoints(rank, false))
  }

  function AceTotal(aces: nat, aceLow: bool): nat {
    if aces == 2 then 1 + RankPoints(ACE, aceLow) else aces * RankPoints(ACE, aceLow)
  }

  function CardsTotal(cards: seq<Card>, aceLow: bool): nat {
    NonAceTotal(cards) + AceTotal(AceCount(cards), aceLow)
  }

  method CountAces(cards: seq<Card>) returns (aceCount: nat)
    ensures aceCount == AceCount(cards)
  {
    aceCount := 0;
    for i := 0 to |cards|
      invariant aceCount == AceCount(cards[..i])
    {
      AceCountSnoc(cards, i);
      if RankField(cards[i]) == ACE {
        aceCount := aceCount + 1;
      }
    }
    assert cards[..|cards|] == cards;
  }

  /** What `seen` of `aces` aces have added so far: of exactly two the first counts low. */
  function AcesSoFar(seen: nat, aces: nat, aceLow: bool): nat {
    if aces == 2 && seen > 0 then 1 + (seen - 1) * RankPoints(ACE, aceLow) else seen * RankPoints(ACE, aceLow)
  }

  /** The source's scoring loop. */
  method RunCardsPoints(cards: seq<Card>, aceLow: bool) returns (total: nat)
    ensures total == CardsTotal(cards, aceLow)
  {
    var aceCount := CountAces(cards);
    total := 0;
    var aceAssignedLow := false;
    ghost var seen := 0;
    for i := 0 to |cards|
      invariant seen == AceCount(cards[..i])
      invariant aceAssignedLow <==> aceCount == 2 && seen > 0
      invariant total == NonAceTotal(cards[..i]) + AcesSoFar(seen, aceCount, aceLow)
    {
      AceCountSnoc(cards, i);
      assert cards[..i + 1][..i] == cards[..i];
      var rank := RankField(cards[i]);
      if rank != ACE {
        total := total + RankPoints(rank, false);
        continue;
      }
      seen := seen + 1;
      if aceCount == 2 && !aceAssignedLow {
        total := total + RankPoints(rank, true);
        aceAssignedLow := true;
        continue;
      }
      total := total + RankPoints(rank, aceLow);
    }
    assert cards[..|cards|] == cards;
  }

  ghost predicate StandOn(cards: seq<Card>, pos: seq<int>) {
    |pos| == |cards| &&
    forall i :: 0 <= i < |cards| ==> 1 <= pos[i] <= 14 && cards[i].Natural? && cards[i].rank == RankAt(pos[i])
  }

  /** Aces are the cards on positions 1 and 14 ... */
  lemma {:induction false} AcesByPosition(cards: seq<Card>, pos: seq<int>)
    requires StandOn(cards, pos)
    ensures AceCount(cards) == multiset(pos)[1] + multiset(pos)[14]
  {
    if cards != [] {
      var k := |cards| - 1;
      AcesByPosition(cards[..k], pos[..k]);
      AceCountSnoc(cards, k);
      assert cards[..k + 1] == cards && pos == pos[..k] + [pos[k]];
    }
  }

  /** ... and everything else keeps its value. */
  lemma {:induction false} TotalsByPosition(cards: seq<Card>, pos: seq<int>)
    requires StandOn(cards, pos)
    ensures ValueSum(pos) == NonAceTotal(cards) + multiset(pos)[1] + 10 * multiset(pos)[14]
  {
    if cards != [] {
      var k := |cards| - 1;
      TotalsByPosition(cards[..k], pos[..k]);
      NonAceTotalSnoc(cards);
      var before, p := multiset(pos[..k]), pos[k];
      assert pos == pos[..k] + [p];
      assert forall q :: multiset(pos)[q] == before[q] + (if q == p then 1 else 0);
    }
  }

  function CardsAt(ranks: seq<int>, suit: Suit): (r: seq<Card>)
    requires Positioned(ranks)
    ensures |r| == |ranks|
  {
    seq(|ranks|, i requires 0 <= i < |ranks| => Natural(RankAt(ranks[i]), suit))
  }

  /** A list of cards standing on every position of a window, and where its total is the window's. */
  lemma WindowTotal(cards: seq<Card>, all: seq<int>, lo: int, n: nat, aceLow: bool)
    requires StandOn(cards, all) && Window(lo, n) && CountsWindow(all, lo, n)
    ensures ScoresWindow(CardsTotal(cards, aceLow), lo, n, aceLow)
  {
    ValueSumOfWindow(all, lo, n);
    TotalsByPosition(cards, all);
    AcesByPosition(cards, all);
  }

  lemma ReplacementsPositioned(bag: multiset<int>, replacements: seq<int>, lo: int, n: int)
    requires Window(lo, n) && FillsWindow(bag, replacements, lo, n)
    ensures Positioned(replacements)
  {
    forall i | 0 <= i < |replacements|
      ensures 1 <= replacements[i] <= 14
    {
      assert replacements[i] in multiset(replacements);
    }
  }

  lemma FilledCounts(pos: seq<int>, replacements: seq<int>, lo: int, n: int)
    requires n == |pos| + |replacements| && FillsWindow(multiset(pos), replacements, lo, n)
    ensures CountsWindow(pos + replacements, lo, n)
  {
  }

  /** What a total says about the window it was read from. */
  predicate ScoresWindow(total: int, lo: int, n: nat, aceLow: bool)
    requires Window(lo, n)
  {
    && (aceLow ==> total <= WindowValue(lo, n))
    && (aceLow && lo + n < 15 ==> total == WindowValue(lo, n))
    && (!aceLow && (lo > 1 || n == 14) ==> total == WindowValue(lo, n))
  }

  /** Naturals and replacements of a filled window: their total, and where it is exact. */
  lemma FilledTotal(nats: seq<Card>, pos: seq<int>, replacements: seq<int>, suit: Suit, lo: int, n: nat, aceLow: bool)
    requires StandOn(nats, pos) && n == |pos| + |replacements| && Window(lo, n)
    requires FillsWindow(multiset(pos), replacements, lo, n)
    ensures Positioned(replacements)
    ensures ScoresWindow(CardsTotal(nats + CardsAt(replacements, suit), aceLow), lo, n, aceLow)
  {
    ReplacementsPositioned(multiset(pos), replacements, lo, n);
    FilledCounts(pos, replacements, lo, n);
    WindowTotal(nats + CardsAt(replacements, suit), pos + replacements, lo, n, aceLow);
  }

  // ---------------------------------------------------------------- which reading wins

  lemma FitsMember(pos: seq<int>, s: int, n: int, x: int)
    requires Fits(pos, s, n) && x in pos
    ensures s <= x < s + n
  {
  }

  /** An admissible window fits the high reading, or a single low ace keeps it away from 14. */
  lemma AdmissibleReading(nats: seq<Card>, suit: Suit, s: int, n: nat)
    requires SameSuit(nats, suit) && nats != [] && Admissible(multiset(nats), s, n)
    ensures Fits(Positions(nats, false), s, n) ||
            (AceCount(nats) == 1 && Fits(Positions(nats, true), s, n) && s + n < 15)
  {
    var suit' :| Admits(multiset(nats), suit', s, n);
    assert nats[0] in multiset(nats);
    AdmitsImpliesFits(nats, suit, s, n);
  }

  lemma FitsAdmissible(nats: seq<Card>, suit: Suit, aceLow: bool, s: int, n: nat)
    requires SameSuit(nats, suit) && Fits(Positions(nats, aceLow), s, n)
    ensures Admissible(multiset(nats), s, n)
  {
    FitsImpliesAdmits(nats, suit, aceLow, s, n);
  }

  lemma HighestIs(m: multiset<Card>, bound: nat, n: nat, top: int)
    requires 1 <= top <= bound && Admissible(m, top, n)
    requires forall s :: top < s <= bound ==> !Admissible(m, s, n)
    ensures HighestStart(m, bound, n) == top
  {
    var r := HighestStart(m, bound, n);
    if r < top {
      assert false;
    }
  }

  lemma LoneAceReachesTop(nats: seq<Card>, top: int, n: nat)
    requires AllNatural(nats) && Fits(Positions(nats, false), top, n)
    ensures AceCount(nats) == 1 ==> top + n == 15
  {
    if AceCount(nats) == 1 {
      OneAcePosition(nats, false);
      FitsMember(Positions(nats, false), top, n, 14);
    }
  }

  /** When the high reading fits, its topmost window is the best one. */
  lemma HighReadingIsTop(nats: seq<Card>, suit: Suit, top: int, n: nat)
    requires n <= 14 && SameSuit(nats, suit) && nats != [] && TopFit(Positions(nats, false), top, n)
    ensures HighestStart(multiset(nats), 15 - n, n) == top
  {
    FitsAdmissible(nats, suit, false, top, n);
    forall s | top < s <= 15 - n
      ensures !Admissible(multiset(nats), s, n)
    {
      if Admissible(multiset(nats), s, n) {
        AdmissibleReading(nats, suit, s, n);
        LoneAceReachesTop(nats, top, n);
        assert false;
      }
    }
    HighestIs(multiset(nats), 15 - n, n, top);
  }

  /** ... and it never starts at a lone low ace. */
  lemma HighReadingStart(nats: seq<Card>, top: int, n: int)
    requires AllNatural(nats) && TopFit(Positions(nats, false), top, n)
    ensures top > 1 || n == 14
  {
    var pos := Positions(nats, false);
    if top == 1 && n < 14 {
      assert !Fits(pos, 2, n);
      assert 1 in pos;
      LowAceHasPartner(nats);
      FitsMember(pos, top, n, 14);
      assert false;
    }
  }

  ghost predicate HighFits(nats: seq<Card>, n: nat)
    requires AllNatural(nats)
  {
    exists s :: Fits(Positions(nats, false), s, n)
  }

  /** When only the low reading fits, every admissible window starts at the ace. */
  lemma OnlyLowWindows(nats: seq<Card>, suit: Suit, s: int, n: nat)
    requires SameSuit(nats, suit) && nats != [] && !HighFits(nats, n)
    requires Admissible(multiset(nats), s, n)
    ensures s == 1 && n < 14
  {
    AdmissibleReading(nats, suit, s, n);
    OneAcePosition(nats, true);
    FitsMember(Positions(nats, true), s, n, 1);
  }

  lemma LowReadingAlone(nats: seq<Card>, suit: Suit, top: int, n: nat)
    requires n <= 14 && SameSuit(nats, suit) && nats != []
    requires TopFit(Positions(nats, true), top, n) && !HighFits(nats, n)
    ensures HighestStart(multiset(nats), 15 - n, n) == top == 1 && n < 14
  {
    FitsAdmissible(nats, suit, true, top, n);
    OnlyLowWindows(nats, suit, top, n);
    forall s | top < s <= 15 - n
      ensures !Admissible(multiset(nats), s, n)
    {
      if Admissible(multiset(nats), s, n) {
        OnlyLowWindows(nats, suit, s, n);
      }
    }
    HighestIs(multiset(nats), 15 - n, n, top);
  }

  lemma HighTotal(nats: seq<Card>, suit: Suit, ranks: seq<int>, top: int, n: nat)
    requires SameSuit(nats, suit) && nats != [] && n == |nats| + |ranks| <= 14
    requires TopFit(Positions(nats, false), top, n)
    requires FillsWindow(multiset(Positions(nats, false)), ranks, top, n)
    ensures Positioned(ranks)
    ensures CardsTotal(nats + CardsAt(ranks, suit), false) == BestOf(multiset(nats), n)
  {
    HighReadingIsTop(nats, suit, top, n);
    HighReadingStart(nats, top, n);
    FilledTotal(nats, Positions(nats, false), ranks, suit, top, n, false);
  }

  lemma LowBelowBest(nats: seq<Card>, suit: Suit, top: int, n: nat)
    requires n <= 14 && SameSuit(nats, suit) && Fits(Positions(nats, true), top, n)
    ensures WindowValue(top, n) <= BestOf(multiset(nats), n)
  {
    FitsAdmissible(nats, suit, true, top, n);
    BestOfIsMaximum(multiset(nats), n, top);
  }

  lemma LowTotal(nats: seq<Card>, suit: Suit, ranks: seq<int>, top: int, n: nat)
    requires SameSuit(nats, suit) && nats != [] && n == |nats| + |ranks| <= 14
    requires TopFit(Positions(nats, true), top, n)
    requires FillsWindow(multiset(Positions(nats, true)), ranks, top, n)
    ensures Positioned(ranks)
    ensures CardsTotal(nats + CardsAt(ranks, suit), true) <= BestOf(multiset(nats), n)
    ensures !HighFits(nats, n) ==> CardsTotal(nats + CardsAt(ranks, suit), true) == BestOf(multiset(nats), n)
  {
    LowBelowBest(nats, suit, top, n);
    FilledTotal(nats, Positions(nats, true), ranks, suit, top, n, true);
    if !HighFits(nats, n) {
      LowReadingAlone(nats, suit, top, n);
    }
  }

  // ---------------------------------------------------------------- runPoints

  function RankTotal(k: nat): nat {
    if k == 0 then 0 else RankTotal(k - 1) + RankPoints(k, false)
  }

  /** A run of jokers alone scores the first ranks, with a high ace. */
  ghost function RunTotal(cards: seq<Card>): nat
    requires |cards| <= 14
  {
    if JokerCount(cards) == |cards| then RankTotal(if |cards| <= 13 then |cards| else 13) else BestTotal(cards)
  }

  lemma {:induction false} FirstRanks(k: nat, suit: Suit)
    requires 1 <= k <= 13
    ensures NonAceTotal(CardsAt(WindowSeq(1, k), suit)) + 10 == RankTotal(k)
  {
    FirstRanksGrow(k, suit);
    if k > 1 {
      FirstRanks(k - 1, suit);
    } else {
      NoRanks(suit);
    }
    hide NonAceTotal, CardsAt, WindowSeq;
    NonAceTotalSnoc(CardsAt(WindowSeq(1, k), suit));
  }

  lemma FirstRanksGrow(k: nat, suit: Suit)
    requires 1 <= k <= 13
    ensures var cards := CardsAt(WindowSeq(1, k), suit);
            |cards| == k && cards[..k - 1] == CardsAt(WindowSeq(1, k - 1), suit) && RankField(cards[k - 1]) == k
  {
  }

  lemma NoRanks(suit: Suit)
    ensures NonAceTotal(CardsAt(WindowSeq(1, 0), suit)) == 0
  {
  }

  lemma NonAceTotalSnoc(cards: seq<Card>)
    requires cards != []
    ensures var k := |cards| - 1;
            NonAceTotal(cards) == NonAceTotal(cards[..k]) +
            (if RankField(cards[k]) == ACE then 0 else RankPoints(RankField(cards[k]), false))
  {
  }

  lemma {:induction false} FirstRanksAces(k: nat, suit: Suit)
    requires 1 <= k <= 13
    ensures AceCount(CardsAt(WindowSeq(1, k), suit)) == 1
  {
    var cards, rest := CardsAt(WindowSeq(1, k), suit), CardsAt(WindowSeq(1, k - 1), suit);
    AceCountSnoc(cards, k - 1);
    assert cards[..k] == cards && cards[..k - 1] == rest;
    if k > 1 {
      FirstRanksAces(k - 1, suit);
    } else {
      assert rest == [];
    }
  }

  method TryFitSequence(realCards: seq<Card>, jokerCount: nat, aceLow: bool, ghost suit: Suit)
    returns (r: Option<seq<Card>>, ghost ranks: seq<int>, ghost top: int)
    requires SameSuit(realCards, suit) && 1 <= |realCards| + jokerCount <= 14
    ensures realCards == [] ==>
              if 3 <= jokerCount then
                r == Some(CardsAt(WindowSeq(1, if jokerCount <= 13 then jokerCount else 13), Hearts))
              else r == None
    ensures realCards != [] ==>
              var pos, n := Positions(realCards, aceLow), |realCards| + jokerCount;
              (r.Some? <==> exists start :: Fits(pos, start, n)) &&
              (r.Some? ==> |ranks| == jokerCount && TopFit(pos, top, n) && FillsWindow(multiset(pos), ranks, top, n)
                           && Positioned(ranks) && r.value == CardsAt(ranks, suit))
  {
    var replacementRanks;
    replacementRanks, top := TryFitSequenceRanks(realCards, jokerCount, aceLow);
    ranks := [];
    if replacementRanks.None? {
      return None, ranks, top;
    }
    var runSuit := Hearts;
    if |realCards| > 0 {
      runSuit := realCards[0].suit;
    }
    ranks := replacementRanks.value;
    if realCards != [] {
      ReplacementsPositioned(multiset(Positions(realCards, aceLow)), ranks, top, |realCards| + jokerCount);
    }
    var found := replacementRanks.value;
    var replacements := [];
    for i := 0 to |found|
      invariant |replacements| == i
      invariant forall j :: 0 <= j < i ==> replacements[j] == Natural(RankAt(found[j]), runSuit)
    {
      replacements := replacements + [Natural(RankAt(found[i]), runSuit)];
    }
    assert replacements == CardsAt(ranks, runSuit);
    return Some(replacements), ranks, top;
  }

  /** The jokers-only case: both readings of its single ace. */
  lemma JokerOnlyTotals(k: nat)
    requires 3 <= k <= 13
    ensures CardsTotal([] + CardsAt(WindowSeq(1, k), Hearts), false) == RankTotal(k)
    ensures CardsTotal([] + CardsAt(WindowSeq(1, k), Hearts), true) <= RankTotal(k)
  {
    var cards := CardsAt(WindowSeq(1, k), Hearts);
    assert [] + cards == cards;
    FirstRanks(k, Hearts);
    FirstRanksAces(k, Hearts);
  }

  /** One reading of the aces: fit, then score. */
  method ScoreReading(realCards: seq<Card>, jokerCount: nat, aceLow: bool,
                      ghost suit: Suit) returns (total: Option<nat>)
    requires SameSuit(realCards, suit) && 3 <= |realCards| + jokerCount <= 14
    ensures realCards == [] ==>
              var joker := RankTotal(if jokerCount <= 13 then jokerCount else 13);
              total.Some? && total.value <= joker && (!aceLow ==> total.value == joker)
    ensures realCards != [] ==>
              var n := |realCards| + jokerCount;
              var best := BestOf(multiset(realCards), n);
              (total.Some? ==> total.value <= best) &&
              (total.Some? <==> exists s :: Fits(Positions(realCards, aceLow), s, n)) &&
              (total.Some? && (!aceLow || !HighFits(realCards, n)) ==> total.value == best)
  {
    var fit, ranks, top := TryFitSequence(realCards, jokerCount, aceLow, suit);
    if fit.None? {
      return None;
    }
    var points := RunCardsPoints(realCards + fit.value, aceLow);
    if realCards == [] {
      JokerOnlyTotals(if jokerCount <= 13 then jokerCount else 13);
    } else if aceLow {
      LowTotal(realCards, suit, ranks, top, |realCards| + jokerCount);
    } else {
      HighTotal(realCards, suit, ranks, top, |realCards| + jokerCount);
    }
    return Some(points);
  }

  /** The better of the two readings, starting from zero. */
  method BetterReading(realCards: seq<Card>, jokerCount: nat, ghost suit: Suit) returns (best: nat)
    requires SameSuit(realCards, suit) && 3 <= |realCards| + jokerCount <= 14
    requires FitsSome(realCards, |realCards| + jokerCount)
    ensures best == if realCards == [] then RankTotal(if jokerCount <= 13 then jokerCount else 13)
                    else BestOf(multiset(realCards), |realCards| + jokerCount)
  {
    ghost var aceLow, start :| Fits(Positions(realCards, aceLow), start, |realCards| + jokerCount);
    best := 0;
    var high := ScoreReading(realCards, jokerCount, false, suit);
    if high.Some? && high.value > best {
      best := high.value;
    }
    var low := ScoreReading(realCards, jokerCount, true, suit);
    if low.Some? && low.value > best {
      best := low.value;
    }
  }

  lemma RunTotalByNaturals(cards: seq<Card>, nats: seq<Card>)
    requires NaturalPart(nats, cards) && 3 <= |cards| <= 14
    ensures RunTotal(cards) == if nats == [] then RankTotal(if |cards| <= 13 then |cards| else 13)
                               else BestOf(multiset(nats), |cards|)
  {
    assert multiset(nats)[Joker := 0] == multiset(nats) by {
      assert forall c :: c in nats ==> c.Natural?;
      assert multiset(nats)[Joker] == 0;
    }
    BestOfByNaturals(multiset(cards), multiset(nats), |cards|);
  }

  lemma RunSuit(cards: seq<Card>, nats: seq<Card>) returns (suit: Suit)
    requires IsRun(cards) && NaturalPart(nats, cards)
    ensures SameSuit(nats, suit) && FitsSome(nats, |cards|)
  {
    RunIffAdmitted(cards);
    var start;
    suit, start :| Admits(multiset(cards), suit, start, |cards|);
    AdmitsSameSuit(cards, nats, suit, start, |cards|);
    RunIffFits(cards, nats, suit);
  }

  method RunPoints(cards: seq<Card>) returns (best: nat)
    requires IsRun(cards)
    ensures best == RunTotal(cards)
  {
    var realCards, jokerCount := SplitJokers(cards);
    ghost var suit := RunSuit(cards, realCards);
    RunTotalByNaturals(cards, realCards);
    assert |realCards| + jokerCount == |cards|;
    best := BetterReading(realCards, jokerCount, suit);
  }
}
