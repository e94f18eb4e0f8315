/** Which layouts bestRunOrder recognises, said of the cards alone: how many ranks of the run have a
    partner d ranks higher decides how the scan of the placements before a given one goes. */
module LayoutStability {
  import opened Cards
  import opened RunSpec
  import opened RunLayout
  import opened RunOrdering
  import opened Compositions
  import opened Relaying

  // ---------------------------------------------------------------- the scan as a race of numbers

  /** Who leads a race in which only a strictly larger number takes the lead and an equal one ends it. */
  datatype Lead = Nobody | LeadAt(index: nat) | Drawn

  function LeadOf(v: seq<nat>): (l: Lead)
    ensures l.LeadAt? ==> l.index < |v|
    ensures l.Nobody? <==> v == []
  {
    if v == [] then Nobody
    else
      var k := |v| - 1;
      match LeadOf(v[..k])
      case Drawn => Drawn
      case Nobody => LeadAt(k)
      case LeadAt(i) => if v[k] > v[i] then LeadAt(k) else if v[k] < v[i] then LeadAt(i) else Drawn
  }

  function MaxOf(v: seq<nat>): (x: nat)
    requires v != []
    ensures x in v && forall y :: y in v ==> y <= x
  {
    var k := |v| - 1;
    if k == 0 then v[0]
    else
      var x := MaxOf(v[..k]);
      assert forall y :: y in v ==> y in v[..k] || y == v[k];
      if v[k] > x then v[k] else x
  }

  /** No number equals the largest before it. */
  predicate NeverDraws(v: seq<nat>) {
    |v| <= 1 || (NeverDraws(v[..|v| - 1]) && v[|v| - 1] != MaxOf(v[..|v| - 1]))
  }

  lemma {:induction false} LeaderIsLargest(v: seq<nat>)
    ensures LeadOf(v) == Drawn <==> !NeverDraws(v)
    ensures LeadOf(v).LeadAt? ==> forall j :: 0 <= j < |v| && j != LeadOf(v).index ==> v[j] < v[LeadOf(v).index]
    ensures LeadOf(v).LeadAt? ==> v[LeadOf(v).index] == MaxOf(v)
  {
    if v != [] {
      var k := |v| - 1;
      LeaderIsLargest(v[..k]);
      forall j | 0 <= j < k
        ensures v[j] == v[..k][j]
      {
      }
    }
  }

  /** How well each placement agrees with the given order. */
  function MatchValues(cards: seq<Card>, list: seq<Candidate>): (v: seq<nat>)
    ensures |v| == |list| && forall i :: 0 <= i < |v| ==> v[i] == Matches(cards, list[i].ordered)
  {
    seq(|list|, i requires 0 <= i < |list| => Matches(cards, list[i].ordered))
  }

  ghost predicate Different(cards: seq<Card>, list: seq<Candidate>) {
    && (forall i :: 0 <= i < |list| ==> |list[i].ordered| == |cards|)
    && (forall i, j :: 0 <= i < j < |list| ==> list[i].ordered != list[j].ordered)
  }

  lemma {:induction false} MatchCountFull(a: seq<Card>, b: seq<Card>, k: nat)
    requires k <= |a| && k <= |b|
    ensures MatchCount(a, b, k) <= k && (MatchCount(a, b, k) == k <==> a[..k] == b[..k])
  {
    if k > 0 {
      MatchCountFull(a, b, k - 1);
      assert a[..k] == a[..k - 1] + [a[k - 1]] && b[..k] == b[..k - 1] + [b[k - 1]];
    }
  }

  /** All cards agree only with the very same list. */
  lemma FullMatch(a: seq<Card>, b: seq<Card>)
    requires |a| == |b|
    ensures Matches(a, b) <= |a| && (Matches(a, b) == |a| <==> a == b)
  {
    MatchCountFull(a, b, |a|);
    assert a[..|a|] == a && b[..|b|] == b;
  }

  ghost predicate ScanAgrees(s: Scan, cards: seq<Card>, list: seq<Candidate>, l: Lead) {
    match l
    case Nobody => s == Running(None)
    case Drawn => s == Tied
    case LeadAt(i) => i < |list| && s == if list[i].ordered == cards then Found(list[i]) else Running(Some(list[i]))
  }

  /** Scanning different placements is the race of their match counts. */
  lemma {:induction false} ScanIsRace(cards: seq<Card>, list: seq<Candidate>)
    requires Different(cards, list)
    ensures ScanAgrees(ScanList(cards, list), cards, list, LeadOf(MatchValues(cards, list)))
  {
    if list != [] {
      var k := |list| - 1;
      ScanIsRace(cards, list[..k]);
      var v := MatchValues(cards, list);
      assert v[..k] == MatchValues(cards, list[..k]);
      RaceStep(cards, list, LeadOf(v[..k]));
    }
  }

  lemma RaceStep(cards: seq<Card>, list: seq<Candidate>, l: Lead)
    requires Different(cards, list) && list != []
    requires var k := |list| - 1;
             l == LeadOf(MatchValues(cards, list)[..k]) && ScanAgrees(ScanList(cards, list[..k]), cards, list[..k], l)
    ensures ScanAgrees(ScanList(cards, list), cards, list, LeadOf(MatchValues(cards, list)))
  {
    hide Matches, Different;
    var k := |list| - 1;
    var c := list[k];
    assert |c.ordered| == |cards| by { DifferentAt(cards, list, k); }
    FullMatch(cards, c.ordered);
    if l.LeadAt? {
      DifferentAt(cards, list, l.index);
      FullMatch(cards, list[l.index].ordered);
      DifferentPair(cards, list, l.index, k);
    }
  }

  lemma DifferentAt(cards: seq<Card>, list: seq<Candidate>, i: nat)
    requires Different(cards, list) && i < |list|
    ensures |list[i].ordered| == |cards|
  {
  }

  lemma DifferentPair(cards: seq<Card>, list: seq<Candidate>, i: nat, j: nat)
    requires Different(cards, list) && i < j < |list|
    ensures list[i].ordered != list[j].ordered
  {
  }

  /** Meeting the same placements once more changes nothing. */
  lemma {:induction false} SecondRound(cards: seq<Card>, list: seq<Candidate>, k: nat)
    requires Different(cards, list) && k <= |list|
    ensures ScanList(cards, list + list[..k]) == ScanList(cards, list)
  {
    hide Different, ScanList, LeadOf, Matches, NeverDraws, MaxOf, MatchValues, Consider;
    if k == 0 {
      assert list + list[..0] == list;
    } else {
      SecondRound(cards, list, k - 1);
      ScanSnoc(cards, list + list[..k - 1], list[k - 1]);
      assert list + list[..k - 1] + [list[k - 1]] == list + list[..k];
      ScanIsRace(cards, list);
      var v := MatchValues(cards, list);
      LeaderIsLargest(v);
      SameAgain(cards, list, k - 1, ScanList(cards, list), LeadOf(v));
    }
  }

  lemma SameAgain(cards: seq<Card>, list: seq<Candidate>, i: nat, s: Scan, l: Lead)
    requires Different(cards, list) && i < |list| && ScanAgrees(s, cards, list, l)
    requires l.LeadAt? ==> l.index < |list| && forall j :: 0 <= j < |list| && j != l.index ==>
               MatchValues(cards, list)[j] < MatchValues(cards, list)[l.index]
    requires l != Nobody
    ensures (if s.Running? then Consider(cards, s.best, list[i]) else s) == s
  {
    if s.Running? {
      FullMatch(cards, list[i].ordered);
      FullMatch(cards, list[l.index].ordered);
      assert MatchValues(cards, list)[i] == Matches(cards, list[i].ordered);
      assert MatchValues(cards, list)[l.index] == Matches(cards, list[l.index].ordered);
    }
  }

  // ---------------------------------------------------------------- the placements of a run without aces

  predicate Has(m: multiset<Card>, suit: Suit, rank: int) {
    2 <= rank <= 13 && m[Natural(rank, suit)] > 0
  }

  predicate NoAce(m: multiset<Card>, suit: Suit) {
    m[Natural(ACE, suit)] == 0
  }

  /** Without aces every placement shows a natural exactly where its rank is. */
  lemma CardOnIs(m: multiset<Card>, suit: Suit, aceLow: bool, p: int)
    requires NoAce(m, suit) && 1 <= p <= 14
    ensures CardOn(m, suit, aceLow, p) == if Has(m, suit, p) then Natural(p, suit) else Joker
  {
  }

  lemma AcelessReading(m: multiset<Card>, suit: Suit, aceLow: bool, start: int, n: int)
    requires NoAce(m, suit)
    ensures ReadingFits(m, suit, aceLow, start, n) <==> Admits(m, suit, start, n)
  {
  }

  lemma AcelessCandidate(m: multiset<Card>, suit: Suit, aceLow: bool, start: int, n: nat)
    requires NoAce(m, suit) && Window(start, n)
    ensures CandidateAt(m, suit, start, aceLow, n) == CandidateAt(m, suit, start, false, n)
  {
    var a, b := Layout(m, suit, aceLow, start, n), Layout(m, suit, false, start, n);
    forall i | 0 <= i < n
      ensures a[i] == b[i]
    {
      CardOnIs(m, suit, aceLow, start + i);
      CardOnIs(m, suit, false, start + i);
    }
    assert a == b;
  }

  /** The windows that admit the cards are consecutive. */
  lemma AdmittedBetween(m: multiset<Card>, suit: Suit, low: int, mid: int, high: int, n: int)
    requires NoAce(m, suit) && Admits(m, suit, low, n) && Admits(m, suit, high, n) && low <= mid <= high
    ensures Admits(m, suit, mid, n)
  {
  }

  /** The lowest window that admits the cards, if one does up to `k`. */
  ghost function FirstStart(m: multiset<Card>, suit: Suit, k: nat, n: nat): (s: nat)
    ensures s > 0 ==> s <= k && Admits(m, suit, s, n) && forall x :: 1 <= x < s ==> !Admits(m, suit, x, n)
    ensures s == 0 ==> forall x :: 1 <= x <= k ==> !Admits(m, suit, x, n)
  {
    if k == 0 then 0
    else
      var s := FirstStart(m, suit, k - 1, n);
      if s > 0 then s else if Admits(m, suit, k, n) then k else 0
  }

  /** The highest such window. */
  ghost function LastStart(m: multiset<Card>, suit: Suit, k: nat, n: nat): (s: nat)
    ensures s > 0 ==> s <= k && Admits(m, suit, s, n) && forall x :: s < x <= k ==> !Admits(m, suit, x, n)
    ensures s == 0 ==> forall x :: 1 <= x <= k ==> !Admits(m, suit, x, n)
  {
    if k == 0 then 0 else if Admits(m, suit, k, n) then k else LastStart(m, suit, k - 1, n)
  }

  /** Windows first .. first + count - 1 are the ones that admit the cards. */
  ghost predicate Starts(m: multiset<Card>, suit: Suit, n: nat, first: nat, count: nat) {
    && 1 <= first && 1 <= count && first + count - 1 + n <= 15
    && forall x: nat :: Admits(m, suit, x, n) <==> first <= x < first + count
  }

  ghost function Placed(m: multiset<Card>, suit: Suit, n: nat, first: nat, count: nat): (r: seq<Candidate>)
    requires 1 <= first && 1 <= n && first + count - 1 + n <= 15
    ensures |r| == count && forall i :: 0 <= i < count ==> r[i] == CandidateAt(m, suit, first + i, false, n)
  {
    seq(count, i requires 0 <= i < count => CandidateAt(m, suit, first + i, false, n))
  }

  lemma {:induction false} PlacedUpTo(m: multiset<Card>, suit: Suit, aceLow: bool, n: nat, first: nat, count: nat,
                                      k: nat)
    requires NoAce(m, suit) && 1 <= n && k + n <= 15 && Starts(m, suit, n, first, count)
    ensures CandidatesUpTo(m, suit, aceLow, k, n) ==
            Placed(m, suit, n, first, count)
              [..if k < first then 0 else if k < first + count then k - first + 1 else count]
  {
    hide CandidateAt, Admits;
    if k > 0 {
      PlacedUpTo(m, suit, aceLow, n, first, count, k - 1);
      AcelessReading(m, suit, aceLow, k, n);
      if first <= k < first + count {
        hide ReadingFits;
        AcelessCandidate(m, suit, aceLow, k, n);
        var all := Placed(m, suit, n, first, count);
        assert all[..k - first + 1] == all[..k - first] + [all[k - first]];
      }
    }
  }

  lemma AllPlaced(m: multiset<Card>, suit: Suit, n: nat, first: nat, count: nat)
    requires NoAce(m, suit) && 1 <= n <= 14 && Starts(m, suit, n, first, count)
    ensures Candidates(m, suit, n) == Placed(m, suit, n, first, count) + Placed(m, suit, n, first, count)
  {
    hide CandidateAt, Admits;
    PlacedUpTo(m, suit, false, n, first, count, 15 - n);
    PlacedUpTo(m, suit, true, n, first, count, 15 - n);
    var all := Placed(m, suit, n, first, count);
    assert all[..count] == all;
  }

  /** The natural of `rank` stands in a different place in every placement. */
  lemma PlacementsDiffer(cards: seq<Card>, suit: Suit, first: nat, count: nat, rank: int)
    requires var m := multiset(cards);
             NoAce(m, suit) && 1 <= |cards| && Starts(m, suit, |cards|, first, count) && Has(m, suit, rank)
    ensures Different(cards, Placed(multiset(cards), suit, |cards|, first, count))
  {
    var m, n := multiset(cards), |cards|;
    var all := Placed(m, suit, n, first, count);
    forall i, j | 0 <= i < j < count
      ensures all[i].ordered != all[j].ordered
    {
      assert Admits(m, suit, first + i, n);
      assert Natural(rank, suit) in m;
      var x := rank - (first + i);
      CardOnIs(m, suit, false, rank);
      CardOnIs(m, suit, false, first + j + x);
      assert all[i].ordered[x] != all[j].ordered[x];
    }
  }

  // ---------------------------------------------------------------- counting agreements

  /** Ranks up to `p` that have a partner `d` ranks higher. */
  function PartnersUpTo(m: multiset<Card>, suit: Suit, d: int, p: nat): nat {
    if p == 0 then 0
    else PartnersUpTo(m, suit, d, p - 1) + if Has(m, suit, p) && Has(m, suit, p + d) then 1 else 0
  }

  /** How many ranks of the run have a partner d ranks higher. */
  function Partners(m: multiset<Card>, suit: Suit, d: int): nat {
    PartnersUpTo(m, suit, d, 13)
  }

  /** Naturals among the first k cards. */
  function NaturalsUpTo(a: seq<Card>, k: nat): nat
    requires k <= |a|
  {
    if k == 0 then 0 else NaturalsUpTo(a, k - 1) + if a[k - 1].Natural? then 1 else 0
  }

  lemma {:induction false} NaturalsAndJokers(a: seq<Card>, k: nat)
    requires k <= |a|
    ensures NaturalsUpTo(a, k) + JokerCount(a[..k]) == k
  {
    if k > 0 {
      NaturalsAndJokers(a, k - 1);
      assert a[..k] == a[..k - 1] + [a[k - 1]];
    }
  }

  lemma AllNaturals(a: seq<Card>)
    ensures NaturalsUpTo(a, |a|) == |a| - JokerCount(a)
  {
    NaturalsAndJokers(a, |a|);
    assert a[..|a|] == a;
  }

  /** Places among the first k where both lists have a natural. */
  function BothUpTo(a: seq<Card>, b: seq<Card>, k: nat): nat
    requires k <= |a| && k <= |b|
  {
    if k == 0 then 0 else BothUpTo(a, b, k - 1) + if a[k - 1].Natural? && b[k - 1].Natural? then 1 else 0
  }

  /** Places among the first k where both lists have the same natural. */
  function SameUpTo(a: seq<Card>, b: seq<Card>, k: nat): nat
    requires k <= |a| && k <= |b|
  {
    if k == 0 then 0 else SameUpTo(a, b, k - 1) + if a[k - 1].Natural? && a[k - 1] == b[k - 1] then 1 else 0
  }

  lemma {:induction false} MatchesByNaturals(a: seq<Card>, b: seq<Card>, k: nat)
    requires k <= |a| && k <= |b|
    ensures MatchCount(a, b, k) + NaturalsUpTo(a, k) + NaturalsUpTo(b, k) == k + BothUpTo(a, b, k) + SameUpTo(a, b, k)
  {
    if k > 0 {
      MatchesByNaturals(a, b, k - 1);
    }
  }

  lemma {:induction false} NoPartnersBelow(m: multiset<Card>, suit: Suit, d: int, p: nat, start: int)
    requires p < start && forall r :: Has(m, suit, r) ==> start <= r
    ensures PartnersUpTo(m, suit, d, p) == 0
  {
    if p > 0 {
      NoPartnersBelow(m, suit, d, p - 1, start);
    }
  }

  lemma {:induction false} NoPartnersAbove(m: multiset<Card>, suit: Suit, d: int, p: nat, q: nat)
    requires p <= q && forall r :: Has(m, suit, r) ==> r <= p
    ensures PartnersUpTo(m, suit, d, q) == PartnersUpTo(m, suit, d, p)
    decreases q
  {
    if p < q {
      NoPartnersAbove(m, suit, d, p, q - 1);
    }
  }

  /** `a` shows the naturals of the cards at their ranks, counting from `start`. */
  ghost predicate Shows(a: seq<Card>, m: multiset<Card>, suit: Suit, start: int) {
    forall x :: 0 <= x < |a| ==> a[x] == if Has(m, suit, start + x) then Natural(start + x, suit) else Joker
  }

  /** Two placements `d` windows apart have naturals in common places as often as ranks have partners. */
  lemma {:induction false} BothArePartners(a: seq<Card>, b: seq<Card>, m: multiset<Card>, suit: Suit, start: int,
                                           d: nat, k: nat)
    requires |a| == |b| && k <= |a| && 1 <= start && d > 0
    requires Shows(a, m, suit, start) && Shows(b, m, suit, start + d)
    requires forall r :: Has(m, suit, r) ==> start <= r
    ensures BothUpTo(b, a, k) == PartnersUpTo(m, suit, d, start + k - 1) && SameUpTo(b, a, k) == 0
  {
    if k == 0 {
      NoPartnersBelow(m, suit, d, start - 1, start);
    } else {
      BothArePartners(a, b, m, suit, start, d, k - 1);
    }
  }

  lemma CandidateShows(m: multiset<Card>, suit: Suit, start: int, n: nat)
    requires NoAce(m, suit) && Window(start, n)
    ensures Shows(CandidateAt(m, suit, start, false, n).ordered, m, suit, start)
  {
    var a := CandidateAt(m, suit, start, false, n).ordered;
    forall x | 0 <= x < n
      ensures a[x] == if Has(m, suit, start + x) then Natural(start + x, suit) else Joker
    {
      CardOnIs(m, suit, false, start + x);
    }
  }

  lemma HasInWindow(m: multiset<Card>, suit: Suit, start: int, n: int)
    requires Admits(m, suit, start, n)
    ensures forall r :: Has(m, suit, r) ==> start <= r < start + n
  {
    forall r | Has(m, suit, r)
      ensures start <= r < start + n
    {
      assert Natural(r, suit) in m;
    }
  }

  lemma LayoutNaturals(cards: seq<Card>, suit: Suit, start: int)
    requires var m := multiset(cards); NoAce(m, suit) && Admits(m, suit, start, |cards|)
    ensures var a := CandidateAt(multiset(cards), suit, start, false, |cards|).ordered;
            |a| == |cards| && NaturalsUpTo(a, |a|) == |cards| - JokerCount(cards)
  {
    LayoutArranges(cards, suit, false, start);
    AllNaturals(CandidateAt(multiset(cards), suit, start, false, |cards|).ordered);
  }

  /** A placement agrees with one `d` windows below it in as many places as ranks have partners d higher,
      up to a number that is the same for all d. */
  lemma MatchesArePartners(cards: seq<Card>, suit: Suit, start: int, d: nat)
    requires var m, n := multiset(cards), |cards|;
             NoAce(m, suit) && d > 0 && Admits(m, suit, start, n) && Admits(m, suit, start + d, n)
    ensures var m, n := multiset(cards), |cards|;
            var low, high := CandidateAt(m, suit, start, false, n).ordered,
                             CandidateAt(m, suit, start + d, false, n).ordered;
            Matches(high, low) + 2 * (n - JokerCount(cards)) == n + Partners(m, suit, d)
  {
    hide Admits, PartnersUpTo, CandidateAt, Shows, MatchCount, NaturalsUpTo, BothUpTo, SameUpTo, NoAce;
    var m, n := multiset(cards), |cards|;
    AdmitsWindow(m, suit, start, n);
    AdmitsWindow(m, suit, start + d, n);
    var low, high := CandidateAt(m, suit, start, false, n).ordered, CandidateAt(m, suit, start + d, false, n).ordered;
    LayoutNaturals(cards, suit, start);
    LayoutNaturals(cards, suit, start + d);
    CandidateShows(m, suit, start, n);
    CandidateShows(m, suit, start + d, n);
    HasInWindow(m, suit, start, n);
    MatchesByNaturals(high, low, n);
    BothArePartners(low, high, m, suit, start, d, n);
    EndsAtKing(m, suit, d, start, n);
  }

  lemma AdmitsWindow(m: multiset<Card>, suit: Suit, start: int, n: int)
    requires Admits(m, suit, start, n)
    ensures Window(start, n)
  {
  }

  lemma EndsAtKing(m: multiset<Card>, suit: Suit, d: int, start: int, n: nat)
    requires Window(start, n) && forall r :: Has(m, suit, r) ==> start <= r < start + n
    ensures PartnersUpTo(m, suit, d, start + n - 1) == Partners(m, suit, d)
  {
    if start + n - 1 <= 13 {
      NoPartnersAbove(m, suit, d, start + n - 1, 13);
    } else {
      NoPartnersAbove(m, suit, d, 13, start + n - 1);
    }
  }

  // ---------------------------------------------------------------- which placements are recognised

  /** Partners at distance k, k - 1, ... 1. */
  function PartnersDown(m: multiset<Card>, suit: Suit, k: nat): (r: seq<nat>)
    ensures |r| == k && forall i :: 0 <= i < k ==> r[i] == Partners(m, suit, k - i)
  {
    seq(k, i requires 0 <= i < k => Partners(m, suit, k - i))
  }

  /** Adding the same to every number changes no race. */
  lemma {:induction false} RaceShift(v: seq<nat>, w: seq<nat>, c: int)
    requires |v| == |w| && forall i :: 0 <= i < |v| ==> w[i] == v[i] + c
    ensures LeadOf(w) == LeadOf(v)
  {
    if v != [] {
      RaceShift(v[..|v| - 1], w[..|v| - 1], c);
    }
  }

  /** A largest number that is not tied wins if the race is still on when it comes. */
  lemma {:induction false} LargestWins(v: seq<nat>, k: nat)
    requires k < |v| && forall j :: 0 <= j < |v| && j != k ==> v[j] < v[k]
    ensures LeadOf(v) == if LeadOf(v[..k]) == Drawn then Drawn else LeadAt(k)
    decreases |v|
  {
    var l := |v| - 1;
    if k < l {
      assert v[..l][..k] == v[..k];
      LargestWins(v[..l], k);
    }
  }

  ghost function StartCount(m: multiset<Card>, suit: Suit, n: nat): int
    requires n <= 14
  {
    LastStart(m, suit, 15 - n, n) - FirstStart(m, suit, 15 - n, n) + 1
  }

  /** The windows between the lowest and the highest are the ones that admit the run. */
  lemma SomeStarts(m: multiset<Card>, suit: Suit, n: nat, start: int) returns (first: nat, count: nat)
    requires NoAce(m, suit) && 1 <= n <= 14 && Admits(m, suit, start, n)
    ensures Starts(m, suit, n, first, count) && first <= start < first + count
    ensures first == FirstStart(m, suit, 15 - n, n) && count == StartCount(m, suit, n)
  {
    hide NoAce;
    AdmitsWindow(m, suit, start, n);
    first := FirstStart(m, suit, 15 - n, n);
    var last := LastStart(m, suit, 15 - n, n);
    count := last - first + 1;
    forall x: nat
      ensures Admits(m, suit, x, n) <==> first <= x < first + count
    {
      if first <= x <= last {
        AdmittedBetween(m, suit, first, x, last, n);
      } else if Admits(m, suit, x, n) {
        AdmitsWindow(m, suit, x, n);
      }
    }
  }

  /** An arrangement without aces is the layout of its window. */
  lemma ArrangementIsPlacement(cards: seq<Card>, suit: Suit, start: int)
    requires Arrangement(cards, suit, start) && 1 <= |cards| <= 14 && NoAce(multiset(cards), suit)
    ensures Admits(multiset(cards), suit, start, |cards|)
    ensures CandidateAt(multiset(cards), suit, start, false, |cards|).ordered == cards
  {
    var m, n := multiset(cards), |cards|;
    ArrangementAdmits(cards, suit, start);
    CandidateShows(m, suit, start, n);
    var a := CandidateAt(m, suit, start, false, n).ordered;
    forall x | 0 <= x < n
      ensures a[x] == cards[x]
    {
      if Has(m, suit, start + x) {
        var i :| 0 <= i < n && cards[i] == Natural(start + x, suit);
      } else if cards[x].Natural? {
        assert cards[x] in m;
      }
    }
  }

  lemma CandidatesAreRuns(cards: seq<Card>, suit: Suit, rank: int)
    requires IsRun(cards) && Has(multiset(cards), suit, rank)
    ensures 3 <= |cards| <= 14 && SuitOf(multiset(cards)) == suit && JokerCount(cards) != |cards|
    ensures exists start :: Admits(multiset(cards), suit, start, |cards|)
  {
    RunIffAdmitted(cards);
    var m := multiset(cards);
    var suit', start :| Admits(m, suit', start, |cards|);
    assert Natural(rank, suit) in m;
    assert Natural(rank, suit) in cards;
    if JokerCount(cards) == |cards| {
      AllJokers(cards);
      assert false;
    }
    SuitOfRun(cards, suit', start);
  }

  /** The answer of bestRunOrder on any order of a run without aces: the placement that wins the race of
      match counts, or none. */
  lemma BestOrderIsRace(cards: seq<Card>, suit: Suit, rank: int, first: nat, count: nat)
    requires IsRun(cards)
    requires var m := multiset(cards); Has(m, suit, rank) && NoAce(m, suit) && Starts(m, suit, |cards|, first, count)
    ensures 3 <= |cards| <= 14
    ensures var list := Placed(multiset(cards), suit, |cards|, first, count);
            match LeadOf(MatchValues(cards, list))
            case Nobody => false
            case Drawn => BestRunOrder(cards) == None
            case LeadAt(i) =>
              i < count &&
              BestRunOrder(cards) == Some(RunOrder(list[i].ordered, list[i].representations, list[i].ordered == cards))
  {
    CandidatesAreRuns(cards, suit, rank);
    var list := Placed(multiset(cards), suit, |cards|, first, count);
    PlacementsDiffer(cards, suit, first, count, rank);
    ScanIsRace(cards, list);
    SecondRound(cards, list, count);
    assert list[..count] == list;
    AllPlaced(multiset(cards), suit, |cards|, first, count);
    hide Placed, MatchValues, LeadOf, ScanList, Candidates, IsRun, SuitOf, Different, Starts;
  }

  /** A run without aces, standing in its window, is recognised exactly when, going from the lowest window
      that admits it towards its own, no distance has as many partners as the most seen before. */
  lemma PlacementRecognisedIff(cards: seq<Card>, suit: Suit, start: int, rank: int)
    requires IsRun(cards) && Arrangement(cards, suit, start)
    requires var m := multiset(cards); NoAce(m, suit) && Has(m, suit, rank)
    ensures 3 <= |cards| <= 14
    ensures var k := start - FirstStart(multiset(cards), suit, 15 - |cards|, |cards|);
            k >= 0 && (CardsAreOrdered(cards) <==> NeverDraws(PartnersDown(multiset(cards), suit, k)))
  {
    hide IsRun, Arrangement, PartnersDown, MatchValues, LeadOf, Starts, BestRunOrder, NeverDraws, FirstStart, NoAce,
         Has, CandidateAt;
    CandidatesAreRuns(cards, suit, rank);
    ArrangementIsPlacement(cards, suit, start);
    var first, count := SomeStarts(multiset(cards), suit, |cards|, start);
    BestOrderIsRace(cards, suit, rank, first, count);
    PlacementRace(cards, suit, start, rank, first, count);
    LeaderIsLargest(PartnersDown(multiset(cards), suit, start - first));
  }

  /** The placement that is the given order agrees everywhere, every other one somewhere not. */
  lemma OwnPlacementBest(cards: seq<Card>, list: seq<Candidate>, k: nat, j: nat)
    requires Different(cards, list) && k < |list| && j < |list| && j != k && list[k].ordered == cards
    ensures MatchValues(cards, list)[j] < MatchValues(cards, list)[k]
  {
    hide Matches, Different;
    DifferentAt(cards, list, j);
    DifferentAt(cards, list, k);
    FullMatch(cards, list[j].ordered);
    FullMatch(cards, list[k].ordered);
    DifferentPair(cards, list, if j < k then j else k, if j < k then k else j);
  }

  ghost predicate PlacedAt(cards: seq<Card>, suit: Suit, start: int, first: nat, count: nat) {
    var m, n := multiset(cards), |cards|;
    1 <= n <= 14 && NoAce(m, suit) && Starts(m, suit, n, first, count) && first <= start < first + count &&
    CandidateAt(m, suit, start, false, n).ordered == cards
  }

  lemma LowerMatches(cards: seq<Card>, suit: Suit, start: int, first: nat, count: nat, i: nat)
    requires PlacedAt(cards, suit, start, first, count) && i < start - first
    ensures MatchValues(cards, Placed(multiset(cards), suit, |cards|, first, count))[i] ==
            Partners(multiset(cards), suit, start - first - i) + |cards| - 2 * (|cards| - JokerCount(cards))
  {
    hide Partners, CandidateAt, Matches, NoAce;
    var m, n := multiset(cards), |cards|;
    assert Admits(m, suit, first + i, n) && Admits(m, suit, start, n);
    hide Admits;
    MatchesArePartners(cards, suit, first + i, start - first - i);
  }

  lemma PlacementRace(cards: seq<Card>, suit: Suit, start: int, rank: int, first: nat, count: nat)
    requires PlacedAt(cards, suit, start, first, count) && Has(multiset(cards), suit, rank)
    ensures var k := start - first;
            var list := Placed(multiset(cards), suit, |cards|, first, count);
            list[k].ordered == cards &&
            LeadOf(MatchValues(cards, list)) ==
            if LeadOf(PartnersDown(multiset(cards), suit, k)) == Drawn then Drawn else LeadAt(k)
  {
    hide Partners, CandidateAt, Matches, LeadOf, Different, Admits, NoAce, Has, MatchValues, PartnersDown;
    PlacementsDiffer(cards, suit, first, count, rank);
    var k, m := start - first, multiset(cards);
    var list := Placed(m, suit, |cards|, first, count);
    var v := MatchValues(cards, list);
    forall j | 0 <= j < count && j != k
      ensures v[j] < v[k]
    {
      OwnPlacementBest(cards, list, k, j);
    }
    var w := PartnersDown(m, suit, k);
    forall i | 0 <= i < k
      ensures v[i] == w[i] + (|cards| - 2 * (|cards| - JokerCount(cards)))
    {
      LowerMatches(cards, suit, start, first, count, i);
    }
    RaceUpTo(v, w, k, |cards| - 2 * (|cards| - JokerCount(cards)));
  }

  lemma RaceUpTo(v: seq<nat>, w: seq<nat>, k: nat, c: int)
    requires |w| == k < |v| && forall i :: 0 <= i < k ==> v[i] == w[i] + c
    requires forall j :: 0 <= j < |v| && j != k ==> v[j] < v[k]
    ensures LeadOf(v) == if LeadOf(w) == Drawn then Drawn else LeadAt(k)
  {
    hide LeadOf;
    LargestWins(v, k);
    RaceShift(w, v[..k], c);
  }

  // ---------------------------------------------------------------- the reversed run

  /** Ranks up to `p` whose partners complete the sum `t`, a rank that is its own partner counted twice. */
  function SumsUpTo(m: multiset<Card>, suit: Suit, t: int, p: nat): nat {
    if p == 0 then 0
    else
      SumsUpTo(m, suit, t, p - 1) +
      if !Has(m, suit, p) || !Has(m, suit, t - p) then 0 else if 2 * p == t then 2 else 1
  }

  function Sums(m: multiset<Card>, suit: Suit, t: int): nat {
    SumsUpTo(m, suit, t, 13)
  }

  /** For each window that admits the run, how the reversal of the run standing at `start` fares there. */
  function SumsAcross(m: multiset<Card>, suit: Suit, start: int, n: nat, first: nat, count: nat): (r: seq<nat>)
    ensures |r| == count && forall i :: 0 <= i < count ==> r[i] == Sums(m, suit, first + i + start + n - 1)
  {
    seq<nat>(count, i requires 0 <= i < count => Sums(m, suit, first + i + start + n - 1))
  }

  lemma {:induction false} NoSumsBelow(m: multiset<Card>, suit: Suit, t: int, p: nat, start: int)
    requires p < start && forall r :: Has(m, suit, r) ==> start <= r
    ensures SumsUpTo(m, suit, t, p) == 0
  {
    if p > 0 {
      NoSumsBelow(m, suit, t, p - 1, start);
    }
  }

  lemma {:induction false} NoSumsAbove(m: multiset<Card>, suit: Suit, t: int, p: nat, q: nat)
    requires p <= q && forall r :: Has(m, suit, r) ==> r <= p
    ensures SumsUpTo(m, suit, t, q) == SumsUpTo(m, suit, t, p)
    decreases q
  {
    if p < q {
      NoSumsAbove(m, suit, t, p, q - 1);
    }
  }

  lemma {:induction false} BothAreSums(a: seq<Card>, b: seq<Card>, m: multiset<Card>, suit: Suit, start: int,
                                       other: int, k: nat)
    requires |a| == |b| && k <= |a| && 1 <= start
    requires Shows(a, m, suit, start) && Shows(b, m, suit, other)
    requires forall r :: Has(m, suit, r) ==> start <= r
    ensures BothUpTo(Reversed(b), a, k) + SameUpTo(Reversed(b), a, k) ==
            SumsUpTo(m, suit, start + other + |a| - 1, start + k - 1)
  {
    if k == 0 {
      NoSumsBelow(m, suit, start + other + |a| - 1, start - 1, start);
    } else {
      BothAreSums(a, b, m, suit, start, other, k - 1);
      assert Reversed(b)[k - 1] == b[|a| - k];
    }
  }

  lemma SumsEnd(m: multiset<Card>, suit: Suit, t: int, start: int, n: nat)
    requires Window(start, n) && forall r :: Has(m, suit, r) ==> start <= r < start + n
    ensures SumsUpTo(m, suit, t, start + n - 1) == Sums(m, suit, t)
  {
    if start + n - 1 <= 13 {
      NoSumsAbove(m, suit, t, start + n - 1, 13);
    } else {
      NoSumsAbove(m, suit, t, 13, start + n - 1);
    }
  }

  lemma ReversedNaturals(cards: seq<Card>)
    ensures NaturalsUpTo(Reversed(cards), |cards|) == |cards| - JokerCount(cards)
  {
    ReversedKeepsCards(cards);
    AllNaturals(Reversed(cards));
  }

  /** The reversal of one placement agrees with another in as many places as sums are completed. */
  lemma MatchesAreSums(cards: seq<Card>, suit: Suit, start: int, other: int)
    requires var m, n := multiset(cards), |cards|;
             NoAce(m, suit) && Admits(m, suit, start, n) && Admits(m, suit, other, n) &&
             CandidateAt(m, suit, other, false, n).ordered == cards
    ensures var m, n := multiset(cards), |cards|;
            Matches(Reversed(cards), CandidateAt(m, suit, start, false, n).ordered) + 2 * (n - JokerCount(cards)) ==
            n + Sums(m, suit, start + other + n - 1)
  {
    hide Admits, SumsUpTo, CandidateAt, Shows, MatchCount, NaturalsUpTo, BothUpTo, SameUpTo, NoAce, Reversed;
    var m, n := multiset(cards), |cards|;
    AdmitsWindow(m, suit, start, n);
    AdmitsWindow(m, suit, other, n);
    var low := CandidateAt(m, suit, start, false, n).ordered;
    LayoutNaturals(cards, suit, start);
    ReversedNaturals(cards);
    CandidateShows(m, suit, start, n);
    CandidateShows(m, suit, other, n);
    HasInWindow(m, suit, start, n);
    MatchesByNaturals(Reversed(cards), low, n);
    BothAreSums(low, cards, m, suit, start, other, n);
    SumsEnd(m, suit, start + other + n - 1, start, n);
  }

  lemma ReversedRace(cards: seq<Card>, suit: Suit, start: int, first: nat, count: nat)
    requires PlacedAt(cards, suit, start, first, count)
    ensures var m, n := multiset(cards), |cards|;
            LeadOf(MatchValues(Reversed(cards), Placed(m, suit, n, first, count))) ==
            LeadOf(SumsAcross(m, suit, start, n, first, count))
  {
    hide Sums, CandidateAt, Matches, LeadOf, NoAce, Reversed;
    var m, n := multiset(cards), |cards|;
    var v, w := MatchValues(Reversed(cards), Placed(m, suit, n, first, count)),
                SumsAcross(m, suit, start, n, first, count);
    forall i | 0 <= i < count
      ensures v[i] == w[i] + (n - 2 * (n - JokerCount(cards)))
    {
      assert Admits(m, suit, first + i, n) && Admits(m, suit, start, n);
      MatchesAreSums(cards, suit, first + i, start);
    }
    RaceShift(w, v, n - 2 * (n - JokerCount(cards)));
  }

  /** Laying out a run without aces that stands in its window leaves it where it is: it is recognised, or the
      scan for its reversal ties, or is won by the run's own place. */
  ghost predicate StaysPut(m: multiset<Card>, suit: Suit, start: int, n: nat)
    requires n <= 14
  {
    var first, count := FirstStart(m, suit, 15 - n, n), StartCount(m, suit, n);
    first <= start < first + count &&
    var across := SumsAcross(m, suit, start, n, first, count);
    NeverDraws(PartnersDown(m, suit, start - first)) || LeadOf(across) == Drawn ||
    LeadOf(across) == LeadAt(start - first)
  }

  lemma PlacementStaysIff(cards: seq<Card>, suit: Suit, start: int, rank: int)
    requires IsRun(cards) && Arrangement(cards, suit, start)
    requires NoAce(multiset(cards), suit) && Has(multiset(cards), suit, rank)
    ensures |cards| <= 14
    ensures Normalized(cards) == cards <==> StaysPut(multiset(cards), suit, start, |cards|)
  {
    hide IsRun, Arrangement, PartnersDown, SumsAcross, MatchValues, LeadOf, BestRunOrder, NeverDraws, NoAce, Has,
         CandidateAt, Admits,
         Reversed, FirstStart, StartCount;
    var m, n := multiset(cards), |cards|;
    CandidatesAreRuns(cards, suit, rank);
    ArrangementIsPlacement(cards, suit, start);
    var first, count := SomeStarts(m, suit, n, start);
    ReversedRun(cards);
    ReversedKeepsCards(cards);
    BestOrderIsRace(cards, suit, rank, first, count);
    BestOrderIsRace(Reversed(cards), suit, rank, first, count);
    PlacementRace(cards, suit, start, rank, first, count);
    ReversedRace(cards, suit, start, first, count);
    LeaderIsLargest(PartnersDown(m, suit, start - first));
    PlacementsDiffer(cards, suit, first, count, rank);
    hide Different;
    var list, l, k := Placed(m, suit, n, first, count),
                      LeadOf(SumsAcross(m, suit, start, n, first, count)), start - first;
    if l.LeadAt? && l.index != k {
      DifferentPair(cards, list, if l.index < k then l.index else k, if l.index < k then k else l.index);
    }
  }

  // ---------------------------------------------------------------- aces

  lemma {:induction false} HighCandidates(m: multiset<Card>, suit: Suit, k: nat, n: nat)
    requires m[Natural(ACE, suit)] >= 1 && 1 <= n && k + n <= 15
    ensures CandidatesUpTo(m, suit, false, k, n) ==
            if k > 0 && k + n == 15 && ReadingFits(m, suit, false, k, n) then [CandidateAt(m, suit, k, false, n)]
            else []
  {
    if k > 0 {
      HighCandidates(m, suit, k - 1, n);
    }
  }

  lemma {:induction false} LowCandidates(m: multiset<Card>, suit: Suit, k: nat, n: nat)
    requires m[Natural(ACE, suit)] >= 1 && 1 <= n && k + n <= 15
    ensures CandidatesUpTo(m, suit, true, k, n) ==
            if k > 0 && ReadingFits(m, suit, true, 1, n) then [CandidateAt(m, suit, 1, true, n)] else []
  {
    if k > 0 {
      LowCandidates(m, suit, k - 1, n);
    }
  }

  /** One of the two readings lays a standing run with an ace out as it stands. */
  lemma AceReading(cards: seq<Card>, suit: Suit, start: int) returns (aceLow: bool)
    requires Arrangement(cards, suit, start) && 2 <= |cards| <= 14 && multiset(cards)[Natural(ACE, suit)] >= 1
    ensures Window(start, |cards|) && ReadingFits(multiset(cards), suit, aceLow, start, |cards|)
    ensures Layout(multiset(cards), suit, aceLow, start, |cards|) == cards
  {
    var m, n, ace := multiset(cards), |cards|, Natural(ACE, suit);
    ArrangementAdmits(cards, suit, start);
    var i :| 0 <= i < n && cards[i] == ace;
    aceLow := m[ace] == 1 && i == 0;
    var a := Layout(m, suit, aceLow, start, n);
    forall x | 0 <= x < n
      ensures a[x] == cards[x]
    {
      AceLayoutAt(cards, suit, start, aceLow, i, x);
    }
  }

  lemma AceLayoutAt(cards: seq<Card>, suit: Suit, start: int, aceLow: bool, i: nat, x: nat)
    requires Arrangement(cards, suit, start) && 2 <= |cards| <= 14 && i < |cards| && x < |cards| &&
             cards[i] == Natural(ACE, suit)
    requires var k := multiset(cards)[Natural(ACE, suit)];
             1 <= k <= AceSlots(start, |cards|) && aceLow == (k == 1 && i == 0)
    ensures CardOn(multiset(cards), suit, aceLow, start + x) == cards[x]
  {
    var m, n, ace := multiset(cards), |cards|, Natural(ACE, suit);
    assert start + i == 1 || start + i == 14;
    if cards[x].Natural? {
      assert cards[x] in m;
      if cards[x] == ace && x != i {
        CountOfTwo(cards, if x < i then x else i, if x < i then i else x, ace);
      }
    } else if 1 < start + x < 14 && m[Natural(start + x, suit)] > 0 {
      var j :| 0 <= j < n && cards[j] == Natural(start + x, suit);
      assert false;
    } else if m[ace] == 2 {
      var p, q := TwoOccurrences(cards, ace);
      assert start + p == 1 && start + q == 14;
    }
  }

  /** A run with an ace has at most one placement for each reading, so a standing one is recognised. */
  lemma AceStays(cards: seq<Card>, suit: Suit, start: int)
    requires IsRun(cards) && Arrangement(cards, suit, start) && multiset(cards)[Natural(ACE, suit)] >= 1
    ensures CardsAreOrdered(cards)
  {
    hide Arrangement, IsRun, CandidatesUpTo, ScanList, SuitOf, Layout, RepresentationsOf, Admits;
    AceSuit(cards, suit, start);
    var aceLow := AceReading(cards, suit, start);
    AceCandidates(cards, suit, start, aceLow);
    OneOfTwo(cards, Candidates(multiset(cards), suit, |cards|),
             CandidateAt(multiset(cards), suit, start, aceLow, |cards|));
  }

  lemma AceCandidates(cards: seq<Card>, suit: Suit, start: int, aceLow: bool)
    requires 3 <= |cards| <= 14 && multiset(cards)[Natural(ACE, suit)] >= 1
    requires ReadingFits(multiset(cards), suit, aceLow, start, |cards|)
    ensures var list := Candidates(multiset(cards), suit, |cards|);
            |list| <= 2 && CandidateAt(multiset(cards), suit, start, aceLow, |cards|) in list
  {
    hide CandidatesUpTo, CandidateAt;
    HighCandidates(multiset(cards), suit, 15 - |cards|, |cards|);
    LowCandidates(multiset(cards), suit, 15 - |cards|, |cards|);
  }

  lemma AceSuit(cards: seq<Card>, suit: Suit, start: int)
    requires IsRun(cards) && Arrangement(cards, suit, start) && multiset(cards)[Natural(ACE, suit)] >= 1
    ensures 3 <= |cards| <= 14 && SuitOf(multiset(cards)) == suit && JokerCount(cards) != |cards|
  {
    ArrangementAdmits(cards, suit, start);
    assert Natural(ACE, suit) in multiset(cards);
    assert Natural(ACE, suit) in cards;
    if JokerCount(cards) == |cards| {
      AllJokers(cards);
      assert false;
    }
    SuitOfRun(cards, suit, start);
  }

  lemma OneOfTwo(cards: seq<Card>, list: seq<Candidate>, c: Candidate)
    requires |list| <= 2 && c in list && c.ordered == cards
    ensures ScanList(cards, list).Found?
  {
    if |list| == 1 {
      assert list[..0] == [];
    } else {
      assert list[..1][..0] == [] && list[..1][0] == list[0];
      assert ScanList(cards, list[..1]) == Consider(cards, None, list[0]);
      assert c == list[0] || c == list[1];
    }
  }

  // ---------------------------------------------------------------- a condition on the cards

  /** The layout of a run lasts unless it stands in a window without aces from which the scan moves it. */
  ghost predicate LayoutLasts(cards: seq<Card>)
    requires |cards| <= 14
  {
    forall suit, start :: Arrangement(cards, suit, start) && NoAce(multiset(cards), suit) &&
                          JokerCount(cards) < |cards| ==>
      StaysPut(multiset(cards), suit, start, |cards|)
  }

  lemma NaturalRank(cards: seq<Card>, suit: Suit, start: int) returns (rank: int)
    requires Arrangement(cards, suit, start) && JokerCount(cards) < |cards| && NoAce(multiset(cards), suit)
    ensures Has(multiset(cards), suit, rank)
  {
    var c := SomeNatural(multiset(cards));
    rank := c.rank;
    var i :| 0 <= i < |cards| && cards[i] == c;
  }

  /** A normal form stands in a window or is left alone for good. */
  lemma NormalFormStands(cards: seq<Card>)
    requires IsRun(cards)
    ensures IsRun(Normalized(cards))
    ensures Normalized(Normalized(cards)) ==
            Normalized(cards) || exists suit, start :: Arrangement(Normalized(cards), suit, start)
  {
    NormalizedKeepsCards(cards);
    ReversedRun(cards);
    if BestRunOrder(cards).Some? {
      BestRunOrderLaysOut(cards);
    } else if BestRunOrder(Reversed(cards)).Some? {
      BestRunOrderLaysOut(Reversed(cards));
    }
  }

  lemma StandingLastsIff(cards: seq<Card>, suit: Suit, start: int)
    requires IsRun(cards) && Arrangement(cards, suit, start)
    ensures |cards| <= 14
    ensures Normalized(cards) == cards <==>
              (NoAce(multiset(cards), suit) && JokerCount(cards) < |cards| ==>
                 StaysPut(multiset(cards), suit, start, |cards|))
  {
    hide Normalized, StaysPut, Arrangement;
    if JokerCount(cards) == |cards| {
      OrderedIsUnchanged(cards);
    } else if NoAce(multiset(cards), suit) {
      var rank := NaturalRank(cards, suit, start);
      PlacementStaysIff(cards, suit, start, rank);
    } else {
      AceStays(cards, suit, start);
      OrderedIsUnchanged(cards);
    }
  }

  /** Whether laying out a normal form again changes it can be read off its cards. */
  lemma LayoutLastsIff(cards: seq<Card>)
    requires IsRun(cards)
    ensures IsRun(Normalized(cards)) && |Normalized(cards)| <= 14
    ensures Normalized(Normalized(cards)) == Normalized(cards) <==> LayoutLasts(Normalized(cards))
  {
    NormalFormStands(cards);
    var n := Normalized(cards);
    RunLength(n);
    hide Normalized, Arrangement, StaysPut, IsRun, NoAce;
    forall suit, start | Arrangement(n, suit, start)
      ensures Normalized(n) == n <==>
                (NoAce(multiset(n), suit) && JokerCount(n) < |n| ==> StaysPut(multiset(n), suit, start, |n|))
    {
      StandingLastsIff(n, suit, start);
    }
  }

  lemma RunLength(cards: seq<Card>)
    requires IsRun(cards)
    ensures 3 <= |cards| <= 14
  {
  }

  /** With an ace, or with at most one joker more than the gaps between its naturals need, a run has at most
      two placements and its layout lasts. */
  lemma FewPlacementsLast(cards: seq<Card>, low: Card, high: Card)
    requires IsRun(cards) && low in cards && high in cards && low.Natural? && high.Natural?
    requires low.rank == ACE || (low.rank <= high.rank && |cards| <= high.rank - low.rank + 2)
    ensures IsRun(Normalized(cards)) && Normalized(Normalized(cards)) == Normalized(cards)
  {
    LayoutLastsIff(cards);
    NormalizedKeepsCards(cards);
    var n := Normalized(cards);
    SameMultisetSameLength(n, cards);
    assert low in multiset(n) && high in multiset(n);
    forall suit, start | Arrangement(n, suit, start) && NoAce(multiset(n), suit) && JokerCount(n) < |n|
      ensures StaysPut(multiset(n), suit, start, |n|)
    {
      NarrowStays(n, suit, start, low, high);
    }
  }

  lemma NarrowStays(cards: seq<Card>, suit: Suit, start: int, low: Card, high: Card)
    requires Arrangement(cards, suit, start) && 3 <= |cards| <= 14 && NoAce(multiset(cards), suit)
    requires low in multiset(cards) && high in multiset(cards) && low.Natural? && high.Natural?
    requires low.rank == ACE || (low.rank <= high.rank && |cards| <= high.rank - low.rank + 2)
    ensures StaysPut(multiset(cards), suit, start, |cards|)
  {
    hide SumsAcross, LeadOf;
    var m, n := multiset(cards), |cards|;
    ArrangementAdmits(cards, suit, start);
    var first, count := SomeStarts(m, suit, n, start);
    assert Admits(m, suit, first, n);
    assert start - first <= 1;
    assert |PartnersDown(m, suit, start - first)| <= 1;
  }
}
