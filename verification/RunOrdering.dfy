/** The loops of bestRunOrder, proved to scan the placements of RunLayout. */
module RunOrdering {
  import opened Cards
  import opened NumberLists
  import opened RunSpec
  import opened RunFilling
  import opened RunLayout

  // ---------------------------------------------------------------- positions and layouts

  lemma FitsImpliesReading(nats: seq<Card>, suit: Suit, aceLow: bool, start: int, n: int)
    requires SameSuit(nats, suit) && Fits(Positions(nats, aceLow), start, n)
    ensures ReadingFits(multiset(nats), suit, aceLow, start, n)
  {
    var ace := Natural(ACE, suit);
    FitsImpliesAdmits(nats, suit, aceLow, start, n);
    AceCountIsMultiplicity(nats, suit);
    if multiset(nats)[ace] == 1 {
      OneAcePosition(nats, aceLow);
    } else if multiset(nats)[ace] == 2 {
      var x, y := TwoOccurrences(nats, ace);
      LowAcesClash(nats, x, y);
    }
  }

  lemma LowAcesClash(nats: seq<Card>, x: int, y: int)
    requires AllNatural(nats) && 0 <= x < y < |nats| && nats[x].rank == ACE && nats[y].rank == ACE
    ensures !Distinct(Positions(nats, true))
  {
    assert Positions(nats, true)[x] == Positions(nats, true)[y];
  }

  /** A position is taken by a natural exactly when the layout has a natural there. */
  lemma TakenPositions(nats: seq<Card>, suit: Suit, aceLow: bool, p: int)
    requires SameSuit(nats, suit) && 1 <= p <= 14 && AceCount(nats) <= 2
    requires AceCount(nats) == 2 ==> !aceLow
    ensures p in Positions(nats, aceLow) <==> CardOn(multiset(nats), suit, aceLow, p).Natural?
  {
    var pos := Positions(nats, aceLow);
    AceCountIsMultiplicity(nats, suit);
    if p in pos {
      var i :| 0 <= i < |pos| && pos[i] == p;
      assert nats[i] in multiset(nats);
    }
    if CardOn(multiset(nats), suit, aceLow, p).Natural? {
      if 1 < p < 14 {
        var i :| 0 <= i < |nats| && nats[i] == Natural(p, suit);
        assert pos[i] == p;
      } else if AceCount(nats) == 1 {
        OneAcePosition(nats, aceLow);
      } else {
        BothAcePositions(nats);
      }
    }
  }

  lemma BothAcePositions(nats: seq<Card>)
    requires AllNatural(nats) && AceCount(nats) == 2
    ensures 1 in Positions(nats, false) && 14 in Positions(nats, false)
  {
    SomeAce(nats);
    assert Positions(nats, false)[FirstAce(nats)] == 1;
    LowAceHasPartner(nats);
  }

  /** Layouts only look at the naturals. */
  lemma LayoutByNaturals(cards: seq<Card>, nats: seq<Card>, suit: Suit, aceLow: bool, start: int, n: nat)
    requires NaturalPart(nats, cards) && Window(start, n)
    ensures ReadingFits(multiset(cards), suit, aceLow, start, n) <==>
              ReadingFits(multiset(nats), suit, aceLow, start, n)
    ensures Layout(multiset(cards), suit, aceLow, start, n) == Layout(multiset(nats), suit, aceLow, start, n)
  {
    AdmitsNaturals(cards, nats, suit, start, n);
    var m, m', r := multiset(cards), multiset(nats), multiset(cards)[Joker := 0];
    forall c: Card | c.Natural?
      ensures m[c] == m'[c]
    {
      assert r[c] == m[c];
    }
  }

  // ---------------------------------------------------------------- one window

  /** The map from positions to natural cards. */
  method RealCardsByRank(realCards: seq<Card>, realRanks: seq<int>, ghost suit: Suit, ghost aceLow: bool)
    returns (byRank: map<int, Card>)
    requires SameSuit(realCards, suit) && realRanks == Positions(realCards, aceLow)
    ensures byRank.Keys == Elements(realRanks)
    ensures forall p :: p in byRank ==> 1 <= p <= 14 && byRank[p] == Natural(RankAt(p), suit)
  {
    byRank := map[];
    for i := 0 to |realRanks|
      invariant byRank.Keys == Elements(realRanks[..i])
      invariant forall p :: p in byRank ==> 1 <= p <= 14 && byRank[p] == Natural(RankAt(p), suit)
    {
      assert realRanks[..i + 1] == realRanks[..i] + [realRanks[i]];
      byRank := byRank[realRanks[i] := realCards[i]];
    }
    assert realRanks[..|realRanks|] == realRanks;
  }

  method CountMissing(keys: set<int>, start: int, n: nat) returns (missing: nat)
    requires forall p :: p in keys ==> start <= p < start + n
    ensures missing == n - |keys|
  {
    missing := 0;
    for rank := start to start + n
      invariant missing + |set p | p in keys && p < rank| == rank - start
    {
      ghost var seen, next := set p | p in keys && p < rank, set p | p in keys && p < rank + 1;
      if rank !in keys {
        assert next == seen;
        missing := missing + 1;
      } else {
        assert next == seen + {rank};
      }
    }
    assert (set p | p in keys && p < start + n) == keys;
  }

  /** Do the positions lie in the window without sharing one? */
  method WindowFits(realRanks: seq<int>, keys: set<int>, jokers: nat, start: int, n: nat) returns (fits: bool)
    requires keys == Elements(realRanks) && Window(start, n) && n == |realRanks| + jokers
    ensures fits <==> Fits(realRanks, start, n)
  {
    for i := 0 to |realRanks|
      invariant forall j :: 0 <= j < i ==> start <= realRanks[j] < start + n
    {
      if realRanks[i] < start || realRanks[i] > start + n - 1 {
        return false;
      }
    }
    var missingCount := CountMissing(keys, start, n);
    DistinctByCount(realRanks);
    return missingCount == jokers;
  }

  /** Write the cards of the window, a joker wherever no natural belongs. */
  method FillWindow(byRank: map<int, Card>, start: int, n: nat, runSuit: Suit)
    returns (ordered: seq<Card>, representations: map<int, Card>)
    requires Window(start, n)
    requires forall p :: p in byRank ==> byRank[p].Natural?
    ensures |ordered| == n
    ensures forall i :: 0 <= i < n ==> ordered[i] == if start + i in byRank then byRank[start + i] else Joker
    ensures representations == RepresentationsOf(ordered, runSuit, start)
  {
    ordered, representations := [], map[];
    for rank := start to start + n
      invariant |ordered| == rank - start
      invariant forall i :: 0 <= i < |ordered| ==>
                  ordered[i] == if start + i in byRank then byRank[start + i] else Joker
      invariant representations ==
                map i | 0 <= i < |ordered| && ordered[i].Joker? :: Natural(RankAt(start + i), runSuit)
    {
      if rank in byRank {
        ordered := ordered + [byRank[rank]];
        continue;
      }
      representations := representations[|ordered| := Natural(RankAt(rank), runSuit)];
      ordered := ordered + [Joker];
    }
  }

  lemma FilledIsLayout(ordered: seq<Card>, nats: seq<Card>, byRank: map<int, Card>, suit: Suit, aceLow: bool,
                       start: int, n: nat)
    requires SameSuit(nats, suit) && ReadingFits(multiset(nats), suit, aceLow, start, n)
    requires byRank.Keys == Elements(Positions(nats, aceLow)) && |ordered| == n
    requires forall p :: p in byRank ==> 1 <= p <= 14 && byRank[p] == Natural(RankAt(p), suit)
    requires forall i :: 0 <= i < n ==> ordered[i] == if start + i in byRank then byRank[start + i] else Joker
    ensures ordered == Layout(multiset(nats), suit, aceLow, start, n)
  {
    AceCountIsMultiplicity(nats, suit);
    forall i | 0 <= i < n
      ensures ordered[i] == CardOn(multiset(nats), suit, aceLow, start + i)
    {
      TakenPositions(nats, suit, aceLow, start + i);
      assert start + i in byRank <==> start + i in Positions(nats, aceLow);
    }
  }

  /** The body of the window loop: the placement at `start`, if there is one. */
  method CandidateFor(cards: seq<Card>, realCards: seq<Card>, realRanks: seq<int>, byRank: map<int, Card>,
                      runSuit: Suit, ghost aceLow: bool, start: int) returns (r: Option<Candidate>)
    requires NaturalPart(realCards, cards) && SameSuit(realCards, runSuit) && Window(start, |cards|)
    requires realRanks == Positions(realCards, aceLow) && byRank.Keys == Elements(realRanks)
    requires forall p :: p in byRank ==> 1 <= p <= 14 && byRank[p] == Natural(RankAt(p), runSuit)
    ensures r == if ReadingFits(multiset(cards), runSuit, aceLow, start, |cards|)
                 then Some(CandidateAt(multiset(cards), runSuit, start, aceLow, |cards|)) else None
  {
    LayoutByNaturals(cards, realCards, runSuit, aceLow, start, |cards|);
    var fits := WindowFits(realRanks, byRank.Keys, |cards| - |realCards|, start, |cards|);
    if !fits {
      if ReadingFits(multiset(realCards), runSuit, aceLow, start, |cards|) {
        ReadingImpliesFits(realCards, runSuit, aceLow, start, |cards|);
      }
      return None;
    }
    FitsImpliesReading(realCards, runSuit, aceLow, start, |cards|);
    var ordered, representations := FillWindow(byRank, start, |cards|, runSuit);
    FilledIsLayout(ordered, realCards, byRank, runSuit, aceLow, start, |cards|);
    return Some(Candidate(ordered, representations));
  }

  // ---------------------------------------------------------------- the scan

  method CompareWithInput(cards: seq<Card>, ordered: seq<Card>) returns (matchCount: nat, matchesInput: bool)
    requires |ordered| == |cards|
    ensures matchCount == Matches(cards, ordered) && (matchesInput <==> ordered == cards)
  {
    matchCount, matchesInput := 0, true;
    for i := 0 to |cards|
      invariant matchCount == MatchCount(cards, ordered, i)
      invariant matchesInput <==> cards[..i] == ordered[..i]
    {
      assert cards[..i + 1] == cards[..i] + [cards[i]] && ordered[..i + 1] == ordered[..i] + [ordered[i]];
      if cards[i] == ordered[i] {
        matchCount := matchCount + 1;
        continue;
      }
      matchesInput := false;
      assert cards[..i + 1][i] != ordered[..i + 1][i];
    }
    assert cards[..|cards|] == cards && ordered[..|cards|] == ordered;
  }

  method ConsiderCandidate(cards: seq<Card>, best: Option<Candidate>, candidate: Candidate) returns (s: Scan)
    requires |candidate.ordered| == |cards| && (best.Some? ==> |best.value.ordered| == |cards|)
    ensures s == Consider(cards, best, candidate)
  {
    var matchCount, matchesInput := CompareWithInput(cards, candidate.ordered);
    if matchesInput {
      return Found(candidate);
    }
    if best.None? {
      return Running(Some(candidate));
    }
    var bestCount, _ := CompareWithInput(cards, best.value.ordered);
    if matchCount > bestCount {
      return Running(Some(candidate));
    }
    if matchCount == bestCount {
      if best.value == candidate {
        return Running(best);
      }
      return Tied;
    }
    return Running(best);
  }

  /** The scan of `done` followed by the windows 1..k of one reading of the aces. */
  ghost function ScanUpTo(cards: seq<Card>, done: seq<Candidate>, suit: Suit, aceLow: bool, k: nat): Scan
    requires 1 <= |cards| && k + |cards| <= 15
  {
    ScanList(cards, done + CandidatesUpTo(multiset(cards), suit, aceLow, k, |cards|))
  }

  lemma ScanSnoc(cards: seq<Card>, list: seq<Candidate>, c: Candidate)
    ensures var s := ScanList(cards, list);
            ScanList(cards, list + [c]) == if s.Running? then Consider(cards, s.best, c) else s
  {
    assert (list + [c])[..|list|] == list;
  }

  /** One more window. */
  lemma ScanStep(cards: seq<Card>, done: seq<Candidate>, suit: Suit, aceLow: bool, k: nat)
    requires 1 <= |cards| && 1 <= k && k + |cards| <= 15
    ensures var s := ScanUpTo(cards, done, suit, aceLow, k - 1);
            ScanUpTo(cards, done, suit, aceLow, k) ==
            if s.Running? && ReadingFits(multiset(cards), suit, aceLow, k, |cards|)
            then Consider(cards, s.best, CandidateAt(multiset(cards), suit, k, aceLow, |cards|)) else s
  {
    var m, n := multiset(cards), |cards|;
    var list := CandidatesUpTo(m, suit, aceLow, k - 1, n);
    if ReadingFits(m, suit, aceLow, k, n) {
      var c := CandidateAt(m, suit, k, aceLow, n);
      ScanSnoc(cards, done + list, c);
      assert done + (list + [c]) == done + list + [c];
    } else {
      assert list + [] == list;
    }
  }

  lemma ScanNone(cards: seq<Card>, done: seq<Candidate>, suit: Suit, aceLow: bool)
    requires 1 <= |cards| <= 15
    ensures ScanUpTo(cards, done, suit, aceLow, 0) == ScanList(cards, done)
  {
    assert done + [] == done;
  }

  /** Once the scan has stopped, more placements change nothing. */
  lemma {:induction false} ScanStops(cards: seq<Card>, done: seq<Candidate>, suit: Suit, aceLow: bool, k: nat, all: nat)
    requires 1 <= |cards| && k <= all && all + |cards| <= 15
    requires !ScanUpTo(cards, done, suit, aceLow, k).Running?
    ensures ScanUpTo(cards, done, suit, aceLow, all) == ScanUpTo(cards, done, suit, aceLow, k)
  {
    if k < all {
      ScanStops(cards, done, suit, aceLow, k, all - 1);
      ScanStep(cards, done, suit, aceLow, all);
    }
  }

  ghost predicate RankTable(cards: seq<Card>, realCards: seq<Card>, realRanks: seq<int>, byRank: map<int, Card>,
                            suit: Suit, aceLow: bool) {
    && NaturalPart(realCards, cards) && SameSuit(realCards, suit)
    && realRanks == Positions(realCards, aceLow) && byRank.Keys == Elements(realRanks)
    && forall p :: p in byRank ==> 1 <= p <= 14 && byRank[p] == Natural(RankAt(p), suit)
  }

  predicate Holds(s: Scan, n: nat) {
    s.Running? && s.best.Some? ==> |s.best.value.ordered| == n
  }

  /** One turn of the window loop. */
  method ScanWindow(cards: seq<Card>, realCards: seq<Card>, realRanks: seq<int>, byRank: map<int, Card>, runSuit: Suit,
                    ghost aceLow: bool, start: nat, before: Scan, ghost done: seq<Candidate>) returns (s: Scan)
    requires RankTable(cards, realCards, realRanks, byRank, runSuit, aceLow)
    requires 1 <= |cards| <= 14 && Window(start, |cards|)
    requires before.Running? && Holds(before, |cards|) && before == ScanUpTo(cards, done, runSuit, aceLow, start - 1)
    ensures s == ScanUpTo(cards, done, runSuit, aceLow, start) && Holds(s, |cards|)
  {
    ScanStep(cards, done, runSuit, aceLow, start);
    var candidate := CandidateFor(cards, realCards, realRanks, byRank, runSuit, aceLow, start);
    if candidate.None? {
      return before;
    }
    s := ConsiderCandidate(cards, before.best, candidate.value);
  }

  /** All windows of one reading of the aces, continuing from what was scanned before. */
  method ScanReading(cards: seq<Card>, realCards: seq<Card>, runSuit: Suit, aceLow: bool, before: Scan,
                     ghost done: seq<Candidate>)
    returns (s: Scan)
    requires 1 <= |cards| <= 14 && NaturalPart(realCards, cards) && SameSuit(realCards, runSuit)
    requires before == ScanList(cards, done) && before.Running? && Holds(before, |cards|)
    ensures s == ScanUpTo(cards, done, runSuit, aceLow, 15 - |cards|) && Holds(s, |cards|)
  {
    var realRanks := SequenceRanksForCards(realCards, aceLow);
    var byRank := RealCardsByRank(realCards, realRanks, runSuit, aceLow);
    s := before;
    ScanNone(cards, done, runSuit, aceLow);
    for start := 1 to 16 - |cards|
      invariant s.Running? && Holds(s, |cards|)
      invariant s == ScanUpTo(cards, done, runSuit, aceLow, start - 1)
    {
      s := ScanWindow(cards, realCards, realRanks, byRank, runSuit, aceLow, start, s, done);
      if !s.Running? {
        ScanStops(cards, done, runSuit, aceLow, start, 15 - |cards|);
        return;
      }
    }
  }

  /** The ace-high windows, then the ace-low windows. */
  method ScanReadings(cards: seq<Card>, realCards: seq<Card>, runSuit: Suit) returns (s: Scan)
    requires 1 <= |cards| <= 14 && NaturalPart(realCards, cards) && SameSuit(realCards, runSuit)
    ensures s == ScanList(cards, Candidates(multiset(cards), runSuit, |cards|))
  {
    ghost var high := CandidatesUpTo(multiset(cards), runSuit, false, 15 - |cards|, |cards|);
    s := ScanReading(cards, realCards, runSuit, false, Running(None), []);
    assert [] + high == high;
    if s.Running? {
      s := ScanReading(cards, realCards, runSuit, true, s, high);
    } else {
      ScanNone(cards, high, runSuit, true);
      ScanStops(cards, high, runSuit, true, 0, 15 - |cards|);
    }
  }

  /** All naturals of one suit, which each caller has made sure of. */
  predicate Suited(cards: seq<Card>) {
    forall i, j :: 0 <= i < |cards| && 0 <= j < |cards| && cards[i].Natural? && cards[j].Natural? ==>
      cards[i].suit == cards[j].suit
  }

  /** Cards that are no run have no placement. */
  method BestRunOrderOf(cards: seq<Card>) returns (r: Option<RunOrder>)
    requires 3 <= |cards| <= 14 && Suited(cards)
    ensures r == if IsRun(cards) then BestRunOrder(cards) else None
  {
    var realCards, jokerCount := SplitJokers(cards);
    if |realCards| == 0 {
      r := OrderOfJokers(cards);
      return;
    }
    NaturalsShareSuit(cards, realCards);
    var s := ScanReadings(cards, realCards, realCards[0].suit);
    if !IsRun(cards) {
      NoPlacements(cards, realCards[0].suit);
    }
    match s
    case Found(c) => return Some(RunOrder(c.ordered, c.representations, true));
    case Tied => return None;
    case Running(None) => return None;
    case Running(Some(c)) => return Some(RunOrder(c.ordered, c.representations, false));
  }

  method OrderOfJokers(cards: seq<Card>) returns (r: Option<RunOrder>)
    requires 3 <= |cards| <= 14 && JokerCount(cards) == |cards|
    ensures IsRun(cards) && r == BestRunOrder(cards)
  {
    var ordered, representations := FillWindow(map[], 1, |cards|, Hearts);
    AllJokers(cards);
    JokersLayOut(cards);
    assert ordered == cards;
    return Some(RunOrder(cards, representations, true));
  }

  lemma NaturalsShareSuit(cards: seq<Card>, nats: seq<Card>)
    requires Suited(cards) && NaturalPart(nats, cards) && nats != []
    ensures SameSuit(nats, nats[0].suit)
    ensures IsRun(cards) ==> SuitOf(multiset(cards)) == nats[0].suit
  {
    forall i | 0 <= i < |nats|
      ensures nats[i].Natural? && nats[i].suit == nats[0].suit
    {
      assert nats[0] in multiset(nats) && nats[i] in multiset(nats);
      assert nats[0] in multiset(cards) && nats[i] in multiset(cards);
    }
    if IsRun(cards) {
      RunIffAdmitted(cards);
      var suit, start :| Admits(multiset(cards), suit, start, |cards|);
      AdmitsSameSuit(cards, nats, suit, start, |cards|);
      SuitOfRun(cards, suit, start);
    }
  }

  lemma NoPlacements(cards: seq<Card>, suit: Suit)
    requires 3 <= |cards| <= 14 && !IsRun(cards)
    ensures ScanList(cards, Candidates(multiset(cards), suit, |cards|)) == Running(None)
  {
    var m, n := multiset(cards), |cards|;
    var list := Candidates(m, suit, n);
    if list != [] {
      var aceLow := list[0] !in CandidatesUpTo(m, suit, false, 15 - n, n);
      var start := CandidateStart(m, suit, aceLow, 15 - n, n, list[0]);
      RunIffAdmitted(cards);
    }
  }

  lemma RunIsSuited(cards: seq<Card>)
    requires IsRun(cards)
    ensures 3 <= |cards| <= 14 && Suited(cards)
  {
    RunIffAdmitted(cards);
    var suit, start :| Admits(multiset(cards), suit, start, |cards|);
    forall i | 0 <= i < |cards| && cards[i].Natural?
      ensures cards[i].suit == suit
    {
      assert cards[i] in multiset(cards);
    }
  }
}
