/** The sort-and-fill pass of composition.go and run validity as a whole. */
module RunFilling {
  import opened Cards
  import opened NumberLists
  import opened RunSpec
  import opened RunFitting

  method SequenceRanksForCards(cards: seq<Card>, aceLow: bool) returns (ranks: seq<int>)
    requires AllNatural(cards)
    ensures ranks == Positions(cards, aceLow)
  {
    var aceCount := 0;
    for i := 0 to |cards|
      invariant aceCount == AceCount(cards[..i])
    {
      AceCountSnoc(cards, i);
      if cards[i].rank == ACE {
        aceCount := aceCount + 1;
      }
    }
    assert cards[..|cards|] == cards;
    ranks := [];
    var aceAssignedLow := false;
    for i := 0 to |cards|
      invariant |ranks| == i
      invariant forall j :: 0 <= j < i ==> ranks[j] == PositionOf(cards, j, aceLow)
      invariant aceAssignedLow <==> aceCount == 2 && FirstAce(cards) < i
    {
      if cards[i].rank == ACE {
        if aceCount == 2 && !aceAssignedLow {
          ranks := ranks + [1];
          aceAssignedLow := true;
        } else if aceLow {
          ranks := ranks + [1];
        } else {
          ranks := ranks + [14];
        }
        continue;
      }
      ranks := ranks + [cards[i].rank];
    }
  }

  /** No later window fits the positions. */
  ghost predicate TopFit(pos: seq<int>, top: int, n: int) {
    Fits(pos, top, n) && forall s :: Fits(pos, s, n) ==> s <= top
  }

  /** The positions in `bag` and the replacements together are the window of `k` from `lo`. */
  ghost predicate FillsWindow(bag: multiset<int>, replacements: seq<int>, lo: int, k: int) {
    forall p :: bag[p] + multiset(replacements)[p] == if lo <= p < lo + k then 1 else 0
  }

  lemma GrowUp(bag: multiset<int>, replacements: seq<int>, lo: int, k: nat)
    requires FillsWindow(bag, replacements, lo, k)
    ensures FillsWindow(bag, replacements + [lo + k], lo, k + 1)
  {
  }

  lemma GrowDown(bag: multiset<int>, replacements: seq<int>, lo: int, k: nat)
    requires FillsWindow(bag, replacements, lo, k)
    ensures FillsWindow(bag, replacements + [lo - 1], lo - 1, k + 1)
  {
  }

  lemma GrowRank(ranks: seq<int>, i: nat, replacements: seq<int>, lo: int, k: nat)
    requires i < |ranks| && ranks[i] == lo + k
    requires FillsWindow(multiset(ranks[..i]), replacements, lo, k)
    ensures FillsWindow(multiset(ranks[..i + 1]), replacements, lo, k + 1)
  {
    assert ranks[..i + 1] == ranks[..i] + [ranks[i]];
  }

  predicate Increasing(s: seq<int>) {
    forall i, j :: 0 <= i < j < |s| ==> s[i] < s[j]
  }

  /** The gaps between consecutive positions, in order. */
  method FillGaps(ranks: seq<int>) returns (replacements: seq<int>)
    requires ranks != [] && Increasing(ranks)
    ensures |ranks| + |replacements| == ranks[|ranks| - 1] - ranks[0] + 1
    ensures FillsWindow(multiset(ranks), replacements, ranks[0], ranks[|ranks| - 1] - ranks[0] + 1)
  {
    replacements := [];
    ghost var lo := ranks[0];
    assert FillsWindow(multiset(ranks[..0]), [], lo, 0);
    GrowRank(ranks, 0, [], lo, 0);
    for i := 1 to |ranks|
      invariant i + |replacements| == ranks[i - 1] - lo + 1
      invariant FillsWindow(multiset(ranks[..i]), replacements, lo, ranks[i - 1] - lo + 1)
    {
      for rank := ranks[i - 1] + 1 to ranks[i]
        invariant i + |replacements| == rank - lo
        invariant FillsWindow(multiset(ranks[..i]), replacements, lo, rank - lo)
      {
        GrowUp(multiset(ranks[..i]), replacements, lo, rank - lo);
        replacements := replacements + [rank];
      }
      GrowRank(ranks, i, replacements, lo, ranks[i] - lo);
    }
    assert ranks[..|ranks|] == ranks;
  }

  /** Jokers left over extend the window upwards to 14, then downwards to 1. */
  method ExtendWindow(ranks: seq<int>, gaps: seq<int>, jokerCount: nat) returns (replacements: seq<int>, ghost lo: int)
    requires ranks != [] && Increasing(ranks) && 1 <= ranks[0] && ranks[|ranks| - 1] <= 14
    requires |ranks| + |gaps| == ranks[|ranks| - 1] - ranks[0] + 1 && |gaps| <= jokerCount
    requires FillsWindow(multiset(ranks), gaps, ranks[0], |ranks| + |gaps|)
    ensures |replacements| <= jokerCount
    ensures FillsWindow(multiset(ranks), replacements, lo, |ranks| + |replacements|)
    ensures 1 <= lo <= ranks[0] && ranks[|ranks| - 1] < lo + |ranks| + |replacements| <= 15
    ensures lo < ranks[0] ==> lo + |ranks| + |replacements| == 15
    ensures |replacements| < jokerCount ==> |ranks| + |replacements| == 14
  {
    replacements := gaps;
    ghost var bag := multiset(ranks);
    var remaining := jokerCount - |gaps|;
    var rank := ranks[|ranks| - 1] + 1;
    lo := ranks[0];
    while remaining > 0 && rank <= 14
      invariant |replacements| + remaining == jokerCount && 0 <= remaining
      invariant ranks[|ranks| - 1] < rank <= 15 && rank - lo == |ranks| + |replacements|
      invariant FillsWindow(bag, replacements, lo, |ranks| + |replacements|)
    {
      GrowUp(bag, replacements, lo, rank - lo);
      replacements := replacements + [rank];
      remaining := remaining - 1;
      rank := rank + 1;
    }
    ghost var top := rank;
    rank := ranks[0] - 1;
    while remaining > 0 && rank >= 1
      invariant |replacements| + remaining == jokerCount && 0 <= remaining
      invariant 0 <= rank && lo == rank + 1 <= ranks[0] && top - lo == |ranks| + |replacements|
      invariant remaining > 0 || lo < ranks[0] ==> top == 15
      invariant FillsWindow(bag, replacements, lo, |ranks| + |replacements|)
      decreases rank
    {
      GrowDown(bag, replacements, lo, top - lo);
      replacements := replacements + [rank];
      remaining := remaining - 1;
      lo := rank;
      rank := rank - 1;
    }
  }

  /** Sorting, then rejecting equal neighbours: what is left is strictly increasing. */
  method SortDistinct(pos: seq<int>) returns (ranks: seq<int>, distinct: bool)
    ensures multiset(ranks) == multiset(pos) && |ranks| == |pos|
    ensures distinct ==> Increasing(ranks)
    ensures !distinct ==> !Distinct(pos)
  {
    ranks := Sorted(pos);
    SortedSorts(pos);
    for i := 0 to |ranks|
      invariant Increasing(ranks[..i])
    {
      if i == 0 {
        continue;
      }
      if ranks[i] == ranks[i - 1] {
        CountOfTwo(ranks, i - 1, i, ranks[i]);
        var x, y := TwoOccurrences(pos, ranks[i]);
        return ranks, false;
      }
      IncreasingSnoc(ranks, i);
    }
    assert ranks[..|ranks|] == ranks;
    distinct := true;
  }

  lemma IncreasingFits(ranks: seq<int>, s: int, n: int)
    requires ranks != [] && Increasing(ranks)
    ensures Fits(ranks, s, n) <==> Window(s, n) && s <= ranks[0] && ranks[|ranks| - 1] < s + n
  {
  }

  method TryFitSequenceRanks(realCards: seq<Card>, jokerCount: nat, aceLow: bool)
    returns (r: Option<seq<int>>, ghost top: int)
    requires AllNatural(realCards)
    ensures realCards == [] ==> r == if 3 <= jokerCount <= 14
                                     then Some(WindowSeq(1, if jokerCount <= 13 then jokerCount else 13)) else None
    ensures realCards != [] ==>
              var pos, n := Positions(realCards, aceLow), |realCards| + jokerCount;
              (r.Some? <==> exists start :: Fits(pos, start, n)) &&
              (r.Some? ==>
                 |r.value| == jokerCount && TopFit(pos, top, n) && FillsWindow(multiset(pos), r.value, top, n))
  {
    top := 1;
    if realCards == [] {
      if jokerCount < 3 || jokerCount > 14 {
        return None, top;
      }
      var replacements: seq<int> := [];
      var rank := ACE;
      while |replacements| < jokerCount && rank <= KING
        invariant rank == |replacements| + 1 && |replacements| <= jokerCount && rank <= KING + 1
        invariant replacements == WindowSeq(1, |replacements|)
      {
        replacements := replacements + [rank];
        rank := rank + 1;
      }
      return Some(replacements), top;
    }
    var pos := SequenceRanksForCards(realCards, aceLow);
    var ranks, distinct := SortDistinct(pos);
    if !distinct {
      return None, top;
    }
    ghost var n := |realCards| + jokerCount;
    forall s
      ensures Fits(pos, s, n) <==> Window(s, n) && s <= ranks[0] && ranks[|ranks| - 1] < s + n
    {
      FitsSorted(pos, ranks, s, n);
      IncreasingFits(ranks, s, n);
    }
    assert 1 <= ranks[0] && ranks[|ranks| - 1] <= 14 by {
      assert ranks[0] in multiset(pos) && ranks[|ranks| - 1] in multiset(pos);
    }
    var gaps := FillGaps(ranks);
    if |gaps| > jokerCount {
      return None, top;
    }
    var replacements;
    replacements, top := ExtendWindow(ranks, gaps, jokerCount);
    if |replacements| < jokerCount {
      return None, top;
    }
    assert Fits(Positions(realCards, aceLow), top, |realCards| + jokerCount);
    return Some(replacements), top;
  }

  lemma IncreasingSnoc(s: seq<int>, i: int)
    requires 1 <= i < |s| && SortedSeq(s) && Increasing(s[..i]) && s[i] != s[i - 1]
    ensures Increasing(s[..i + 1])
  {
    forall x | 0 <= x < i
      ensures s[x] < s[i]
    {
      assert s[x] <= s[i - 1] <= s[i];
    }
    var t := s[..i + 1];
    forall x, y | 0 <= x < y < |t|
      ensures t[x] < t[y]
    {
      if y < i {
        assert s[..i][x] < s[..i][y];
      }
    }
  }

  // ---------------------------------------------------------------- run validity

  /** A run is exactly a list whose naturals share a suit and fit under one reading of the aces. */
  lemma RunIffFits(cards: seq<Card>, nats: seq<Card>, suit: Suit)
    requires 3 <= |cards| <= 14 && NaturalPart(nats, cards) && SameSuit(nats, suit)
    ensures IsRun(cards) <==> FitsSome(nats, |cards|)
  {
    var n := |cards|;
    RunIffAdmitted(cards);
    if IsRun(cards) {
      var suit', start :| Admits(multiset(cards), suit', start, n);
      AdmitsSameSuit(cards, nats, suit', start, n);
      AdmitsNaturals(cards, nats, suit', start, n);
      AdmitsImpliesFits(nats, suit', start, n);
    }
    if FitsSome(nats, n) {
      var aceLow, start :| Fits(Positions(nats, aceLow), start, n);
      FitsImpliesAdmits(nats, suit, aceLow, start, n);
      AdmitsNaturals(cards, nats, suit, start, n);
    }
  }

  ghost predicate FitsSome(nats: seq<Card>, n: nat)
    requires AllNatural(nats)
  {
    exists aceLow, start :: Fits(Positions(nats, aceLow), start, n)
  }

  lemma NoNaturalsFit(n: nat)
    requires 3 <= n <= 14
    ensures FitsSome([], n)
  {
    assert Fits(Positions([], false), 1, n);
  }

  lemma MixedSuitsNeverRun(cards: seq<Card>, nats: seq<Card>, i: int, j: int)
    requires NaturalPart(nats, cards) && 0 <= i < |nats| && 0 <= j < |nats| && nats[i].suit != nats[j].suit
    ensures !IsRun(cards)
  {
    RunIffAdmitted(cards);
    if suit, start :| Admits(multiset(cards), suit, start, |cards|) {
      AdmitsSameSuit(cards, nats, suit, start, |cards|);
      assert false;
    }
  }

  lemma NaturalRunAgrees(nats: seq<Card>, suit: Suit)
    requires 3 <= |nats| <= 14 && SameSuit(nats, suit)
    ensures FitsSome(nats, |nats|) <==> exists start :: Admits(multiset(nats), suit, start, |nats|)
  {
    if FitsSome(nats, |nats|) {
      var aceLow, start :| Fits(Positions(nats, aceLow), start, |nats|);
      FitsImpliesAdmits(nats, suit, aceLow, start, |nats|);
    }
    if start :| Admits(multiset(nats), suit, start, |nats|) {
      AdmitsImpliesFits(nats, suit, start, |nats|);
    }
  }

  /** The choice between the counting check and the two fitting passes. */
  method RealCardsFit(realCards: seq<Card>, jokerCount: nat, ghost suit: Suit) returns (valid: bool)
    requires SameSuit(realCards, suit) && 3 <= |realCards| + jokerCount <= 14
    ensures valid <==> FitsSome(realCards, |realCards| + jokerCount)
  {
    if jokerCount == 0 {
      NaturalRunAgrees(realCards, suit);
      valid := NaturalRunIsValid(realCards, suit);
      return;
    }
    if realCards == [] {
      NoNaturalsFit(jokerCount);
    }
    var fit, top := TryFitSequenceRanks(realCards, jokerCount, false);
    if fit.Some? {
      return true;
    }
    fit, top := TryFitSequenceRanks(realCards, jokerCount, true);
    return fit.Some?;
  }

  method IsValidRun(cards: seq<Card>) returns (valid: bool)
    ensures valid <==> IsRun(cards)
  {
    if |cards| < 3 || |cards| > 14 {
      return false;
    }
    var realCards, jokerCount := SplitJokers(cards);
    var suit := Hearts;
    if |realCards| > 0 {
      suit := realCards[0].suit;
      for i := 1 to |realCards|
        invariant forall j :: 0 <= j < i ==> realCards[j].suit == suit
      {
        if realCards[i].suit != suit {
          MixedSuitsNeverRun(cards, realCards, 0, i);
          return false;
        }
      }
    }
    RunIffFits(cards, realCards, suit);
    assert |realCards| + jokerCount == |cards|;
    valid := RealCardsFit(realCards, jokerCount, suit);
  }
}
