/** bestRunOrder of composition.go: of all placements of a run it keeps the one closest to
    the given order, stops at an exact match, and gives up on a tie. */
module RunLayout {
  import opened Cards
  import opened RunSpec

  datatype Candidate = Candidate(ordered: seq<Card>, representations: map<int, Card>)

  datatype RunOrder = RunOrder(ordered: seq<Card>, representations: map<int, Card>, matchesInput: bool)

  /** The scan is still running, has met the given order itself, or has met a tie. */
  datatype Scan = Running(best: Option<Candidate>) | Found(found: Candidate) | Tied

  // ---------------------------------------------------------------- the placements of a run

  /** The suit of the naturals; hearts when there are none. */
  ghost function SuitOf(m: multiset<Card>): Suit {
    if c :| c in m && c.Natural? then c.suit else Hearts
  }

  ghost function RepresentationsOf(ordered: seq<Card>, suit: Suit, start: int): map<int, Card>
    requires Window(start, |ordered|)
  {
    map i | 0 <= i < |ordered| && ordered[i].Joker? :: Natural(RankAt(start + i), suit)
  }

  ghost function CandidateAt(m: multiset<Card>, suit: Suit, start: int, aceLow: bool, n: nat): Candidate
    requires Window(start, n)
  {
    var ordered := Layout(m, suit, aceLow, start, n);
    Candidate(ordered, RepresentationsOf(ordered, suit, start))
  }

  /** The placements of one reading of the aces whose window starts at 1..k, lowest first. */
  ghost function CandidatesUpTo(m: multiset<Card>, suit: Suit, aceLow: bool, k: nat, n: nat): seq<Candidate>
    requires 1 <= n && k + n <= 15
  {
    if k == 0 then []
    else
      CandidatesUpTo(m, suit, aceLow, k - 1, n) +
      (if ReadingFits(m, suit, aceLow, k, n) then [CandidateAt(m, suit, k, aceLow, n)] else [])
  }

  ghost function Candidates(m: multiset<Card>, suit: Suit, n: nat): seq<Candidate>
    requires 1 <= n <= 14
  {
    CandidatesUpTo(m, suit, false, 15 - n, n) + CandidatesUpTo(m, suit, true, 15 - n, n)
  }

  // ---------------------------------------------------------------- scanning them

  /** How many of the first k cards agree. */
  function MatchCount(a: seq<Card>, b: seq<Card>, k: nat): nat
    requires k <= |a| && k <= |b|
  {
    if k == 0 then 0 else MatchCount(a, b, k - 1) + (if a[k - 1] == b[k - 1] then 1 else 0)
  }

  function Matches(a: seq<Card>, b: seq<Card>): nat {
    if |a| <= |b| then MatchCount(a, b, |a|) else 0
  }

  ghost function Consider(cards: seq<Card>, best: Option<Candidate>, c: Candidate): Scan {
    if c.ordered == cards then Found(c)
    else if best.None? then Running(Some(c))
    else if Matches(cards, c.ordered) > Matches(cards, best.value.ordered) then Running(Some(c))
    else if Matches(cards, c.ordered) < Matches(cards, best.value.ordered) || best.value == c then Running(best)
    else Tied
  }

  ghost function ScanList(cards: seq<Card>, list: seq<Candidate>): Scan {
    if list == [] then Running(None)
    else
      var s := ScanList(cards, list[..|list| - 1]);
      if s.Running? then Consider(cards, s.best, list[|list| - 1]) else s
  }

  ghost function BestRunOrder(cards: seq<Card>): Option<RunOrder>
    requires IsRun(cards)
  {
    if JokerCount(cards) == |cards| then Some(RunOrder(cards, RepresentationsOf(cards, Hearts, 1), true))
    else
      match ScanList(cards, Candidates(multiset(cards), SuitOf(multiset(cards)), |cards|))
      case Found(c) => Some(RunOrder(c.ordered, c.representations, true))
      case Tied => None
      case Running(None) => None
      case Running(Some(c)) => Some(RunOrder(c.ordered, c.representations, false))
  }

  ghost predicate CardsAreOrdered(cards: seq<Card>)
    requires IsRun(cards)
  {
    var r := BestRunOrder(cards);
    r.Some? && r.value.matchesInput
  }

  // ---------------------------------------------------------------- soundness of the layout

  /** A layout of `cards`: a permutation on consecutive positions that names the card of each joker. */
  ghost predicate LaysOut(cards: seq<Card>, ordered: seq<Card>, representations: map<int, Card>, suit: Suit,
                          start: int) {
    && ArrangesAt(cards, ordered, suit, start)
    && (forall i :: i in representations <==> 0 <= i < |ordered| && ordered[i].Joker?)
    && (forall i :: i in representations ==>
          1 <= start + i <= 14 && representations[i] == Natural(RankAt(start + i), suit))
  }

  ghost predicate SoundCandidate(cards: seq<Card>, c: Candidate) {
    exists suit, start :: LaysOut(cards, c.ordered, c.representations, suit, start)
  }

  lemma CandidateIsSound(cards: seq<Card>, suit: Suit, aceLow: bool, start: int)
    requires ReadingFits(multiset(cards), suit, aceLow, start, |cards|)
    ensures SoundCandidate(cards, CandidateAt(multiset(cards), suit, start, aceLow, |cards|))
  {
    LayoutArranges(cards, suit, aceLow, start);
    var c := CandidateAt(multiset(cards), suit, start, aceLow, |cards|);
    assert LaysOut(cards, c.ordered, c.representations, suit, start);
  }

  lemma {:induction false} CandidateStart(m: multiset<Card>, suit: Suit, aceLow: bool, k: nat, n: nat, c: Candidate)
    returns (start: int)
    requires 1 <= n && k + n <= 15 && c in CandidatesUpTo(m, suit, aceLow, k, n)
    ensures ReadingFits(m, suit, aceLow, start, n) && c == CandidateAt(m, suit, start, aceLow, n)
  {
    if c in CandidatesUpTo(m, suit, aceLow, k - 1, n) {
      start := CandidateStart(m, suit, aceLow, k - 1, n, c);
    } else {
      start := k;
    }
  }

  lemma CandidatesSound(cards: seq<Card>, suit: Suit, c: Candidate)
    requires 1 <= |cards| <= 14 && c in Candidates(multiset(cards), suit, |cards|)
    ensures SoundCandidate(cards, c)
  {
    var m, n := multiset(cards), |cards|;
    var aceLow := c !in CandidatesUpTo(m, suit, false, 15 - n, n);
    var start := CandidateStart(m, suit, aceLow, 15 - n, n, c);
    CandidateIsSound(cards, suit, aceLow, start);
  }

  /** The scan holds one of the placements, equal to the given order exactly when it was found. */
  lemma {:induction false} ScanPicks(cards: seq<Card>, list: seq<Candidate>)
    ensures match ScanList(cards, list)
            case Running(None) => list == []
            case Running(Some(c)) => c in list && c.ordered != cards
            case Found(c) => c in list && c.ordered == cards
            case Tied => true
  {
    if list != [] {
      ScanPicks(cards, list[..|list| - 1]);
    }
  }

  lemma AllJokers(cards: seq<Card>)
    requires JokerCount(cards) == |cards|
    ensures forall i :: 0 <= i < |cards| ==> cards[i].Joker?
  {
    var m := multiset(cards);
    var rest := m[Joker := 0];
    assert |rest| == |m| - m[Joker];
    assert forall c :: c != Joker ==> rest[c] == m[c];
    forall i | 0 <= i < |cards|
      ensures cards[i].Joker?
    {
      assert cards[i] in m;
    }
  }

  lemma JokersLayOut(cards: seq<Card>)
    requires 1 <= |cards| <= 14 && JokerCount(cards) == |cards|
    ensures LaysOut(cards, cards, RepresentationsOf(cards, Hearts, 1), Hearts, 1)
  {
    AllJokers(cards);
  }

  /** Whatever bestRunOrder returns lays the run out; the match flag says the cards stand as given. */
  lemma BestRunOrderLaysOut(cards: seq<Card>)
    requires IsRun(cards) && BestRunOrder(cards).Some?
    ensures var r := BestRunOrder(cards).value;
            SoundCandidate(cards, Candidate(r.ordered, r.representations)) &&
            (r.matchesInput <==> r.ordered == cards)
  {
    if JokerCount(cards) == |cards| {
      JokersLayOut(cards);
    } else {
      var suit := SuitOf(multiset(cards));
      var r := BestRunOrder(cards).value;
      ScanPicks(cards, Candidates(multiset(cards), suit, |cards|));
      CandidatesSound(cards, suit, Candidate(r.ordered, r.representations));
    }
  }

  /** `full` puts each joker's representation in its place. */
  ghost function SubstituteAll(ordered: seq<Card>, representations: map<int, Card>): (full: seq<Card>)
    ensures |full| == |ordered|
  {
    seq(|ordered|, i requires 0 <= i < |ordered| => if i in representations then representations[i] else ordered[i])
  }

  /** With its jokers substituted, a layout is a joker-free run on the same window. */
  lemma SubstitutedIsNaturalRun(cards: seq<Card>, ordered: seq<Card>, representations: map<int, Card>, suit: Suit,
                                start: int)
    requires 3 <= |cards| <= 14 && LaysOut(cards, ordered, representations, suit, start)
    ensures var full := SubstituteAll(ordered, representations);
            Substitutes(ordered, full) && SameSuit(full, suit) && IsRun(full) &&
            Admits(multiset(full), suit, start, |full|)
  {
    var full := SubstituteAll(ordered, representations);
    SameMultisetSameLength(ordered, cards);
    assert ArrangesAt(full, full, suit, start);
    ArrangementAdmits(full, suit, start);
  }

  // ---------------------------------------------------------------- recognition

  lemma {:induction false} FirstIsFound(cards: seq<Card>, list: seq<Candidate>)
    requires list != [] && list[0].ordered == cards
    ensures ScanList(cards, list) == Found(list[0])
  {
    if |list| == 1 {
      assert list[..0] == [];
    } else {
      FirstIsFound(cards, list[..|list| - 1]);
    }
  }

  lemma {:induction false} CandidatesUpToNonempty(m: multiset<Card>, suit: Suit, aceLow: bool, k: nat, n: nat, fit: int)
    requires 1 <= n && k + n <= 15 && 1 <= fit <= k && ReadingFits(m, suit, aceLow, fit, n)
    ensures CandidatesUpTo(m, suit, aceLow, k, n) != []
  {
    if fit < k {
      CandidatesUpToNonempty(m, suit, aceLow, k - 1, n, fit);
    }
  }

  lemma SomeNatural(m: multiset<Card>) returns (c: Card)
    requires m[Joker] != |m|
    ensures c in m && c.Natural?
  {
    assert |m[Joker := 0]| == |m| - m[Joker];
    assert m[Joker := 0] != multiset{};
    c :| c in m[Joker := 0];
  }

  lemma SuitOfRun(cards: seq<Card>, suit: Suit, start: int)
    requires Admits(multiset(cards), suit, start, |cards|) && JokerCount(cards) != |cards|
    ensures SuitOf(multiset(cards)) == suit
  {
    var c := SomeNatural(multiset(cards));
  }

  lemma RunHasCandidates(cards: seq<Card>)
    requires IsRun(cards) && JokerCount(cards) != |cards|
    ensures Candidates(multiset(cards), SuitOf(multiset(cards)), |cards|) != []
  {
    var m, n := multiset(cards), |cards|;
    RunIffAdmitted(cards);
    var suit, start :| Admits(m, suit, start, n);
    SuitOfRun(cards, suit, start);
    CandidatesUpToNonempty(m, suit, LowFor(m, suit, start, n), 15 - n, n, start);
  }

  /** Being a run does not depend on the order. */
  lemma SameRun(cards: seq<Card>, other: seq<Card>)
    requires multiset(cards) == multiset(other)
    ensures |other| == |cards| && (IsRun(cards) <==> IsRun(other))
  {
    SameMultisetSameLength(cards, other);
    RunIffAdmitted(cards);
    RunIffAdmitted(other);
  }

  /** A run given as its first placement is recognised. */
  lemma FirstIsRecognised(ordered: seq<Card>)
    requires IsRun(ordered) && JokerCount(ordered) != |ordered|
    requires var list := Candidates(multiset(ordered), SuitOf(multiset(ordered)), |ordered|);
             list != [] && list[0].ordered == ordered
    ensures CardsAreOrdered(ordered)
  {
    FirstIsFound(ordered, Candidates(multiset(ordered), SuitOf(multiset(ordered)), |ordered|));
  }

  /** Every run can be ordered so that bestRunOrder recognises it as it stands. */
  lemma SomeOrderIsRecognised(cards: seq<Card>) returns (ordered: seq<Card>)
    requires IsRun(cards)
    ensures multiset(ordered) == multiset(cards) && IsRun(ordered) && CardsAreOrdered(ordered)
  {
    ordered := cards;
    if JokerCount(cards) != |cards| {
      var list := Candidates(multiset(cards), SuitOf(multiset(cards)), |cards|);
      RunHasCandidates(cards);
      CandidatesSound(cards, SuitOf(multiset(cards)), list[0]);
      ordered := list[0].ordered;
      SameRun(cards, ordered);
      FirstIsRecognised(ordered);
    }
  }
}
