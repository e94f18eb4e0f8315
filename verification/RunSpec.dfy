/** What sets and runs are, stated without any algorithm, and the two equivalent
    views of a run every algorithm of composition.go works on: a multiset that fits
    a window of positions, and a list of distinct positions inside that window. */
module RunSpec {
  import opened Cards
  import opened NumberLists

  // ---------------------------------------------------------------- declarative notions

  /** Positions 1..14 of a suit: the ace stands at both ends. */
  function RankAt(p: int): Rank
    requires 1 <= p <= 14
  {
    if p == 14 then ACE else p
  }

  /** Every natural card of `a` stands on its own position, counting from `start`. */
  ghost predicate Arrangement(a: seq<Card>, suit: Suit, start: int) {
    1 <= start && start + |a| <= 15 &&
    forall i :: 0 <= i < |a| && a[i].Natural? ==> a[i] == Natural(RankAt(start + i), suit)
  }

  ghost predicate ArrangesAt(cards: seq<Card>, a: seq<Card>, suit: Suit, start: int) {
    multiset(a) == multiset(cards) && Arrangement(a, suit, start)
  }

  /** Three to fourteen cards that can be put on consecutive positions of one suit,
      jokers filling whatever positions no natural card takes. */
  ghost predicate IsRun(cards: seq<Card>) {
    3 <= |cards| <= 14 && exists a, suit, start :: ArrangesAt(cards, a, suit, start)
  }

  /** `full` replaces each joker of `cards` by a natural card. */
  predicate Substitutes(cards: seq<Card>, full: seq<Card>) {
    |full| == |cards| &&
    forall i :: 0 <= i < |cards| ==> full[i].Natural? && (cards[i].Natural? ==> full[i] == cards[i])
  }

  predicate NaturalSet(full: seq<Card>) {
    forall i, j :: 0 <= i < j < |full| ==>
      full[i].Natural? && full[j].Natural? && full[i].rank == full[j].rank && full[i].suit != full[j].suit
  }

  /** Three or four cards whose jokers can be replaced to give one rank in distinct suits. */
  ghost predicate IsSet(cards: seq<Card>) {
    3 <= |cards| <= 4 && exists full :: Substitutes(cards, full) && NaturalSet(full)
  }

  // ---------------------------------------------------------------- windows of positions

  function AceSlots(start: int, n: int): nat {
    (if start == 1 then 1 else 0) + (if start + n == 15 then 1 else 0)
  }

  predicate Window(start: int, n: int) {
    1 <= start && 1 <= n && start + n <= 15
  }

  /** The naturals of `m` share `suit` and each finds a place of its own in the window. */
  ghost predicate Admits(m: multiset<Card>, suit: Suit, start: int, n: int) {
    && Window(start, n)
    && (forall c :: c in m && c.Natural? ==>
          c.suit == suit && (c.rank != ACE ==> start <= c.rank < start + n && m[c] <= 1))
    && m[Natural(ACE, suit)] <= AceSlots(start, n)
  }

  // ---------------------------------------------------------------- positions of naturals

  function AceCount(cards: seq<Card>): nat {
    Aces(multiset(cards))
  }

  lemma AceCountAdd(m: multiset<Card>, c: Card)
    ensures Aces(m + multiset{c}) == Aces(m) + (if RankField(c) == ACE then 1 else 0)
  {
    assert forall x :: (m + multiset{c})[x] == m[x] + (if x == c then 1 else 0);
    if RankField(c) == ACE {
      match c.suit
      case Hearts => assert c == Natural(ACE, Hearts);
      case Diamonds => assert c == Natural(ACE, Diamonds);
      case Clubs => assert c == Natural(ACE, Clubs);
      case Spades => assert c == Natural(ACE, Spades);
    }
  }

  function Aces(m: multiset<Card>): nat {
    m[Natural(ACE, Hearts)] + m[Natural(ACE, Diamonds)] + m[Natural(ACE, Clubs)] + m[Natural(ACE, Spades)]
  }

  lemma AceCountSnoc(cards: seq<Card>, i: nat)
    requires i < |cards|
    ensures AceCount(cards[..i + 1]) == AceCount(cards[..i]) + (if RankField(cards[i]) == ACE then 1 else 0)
  {
    assert cards[..i + 1] == cards[..i] + [cards[i]];
    AceCountAdd(multiset(cards[..i]), cards[i]);
  }

  predicate SameSuit(cards: seq<Card>, suit: Suit) {
    forall i :: 0 <= i < |cards| ==> cards[i].Natural? && cards[i].suit == suit
  }

  /** The index of the first ace, or the length when there is none. */
  function FirstAce(cards: seq<Card>): (r: nat)
    ensures r <= |cards|
    ensures r < |cards| ==> RankField(cards[r]) == ACE
    ensures forall i :: 0 <= i < r ==> RankField(cards[i]) != ACE
  {
    if cards == [] then 0
    else
      var k := |cards| - 1;
      var f := FirstAce(cards[..k]);
      if f < k || RankField(cards[k]) == ACE then f else k + 1
  }

  /** Two aces take both ends; otherwise every ace goes to the end `aceLow` names. */
  function PositionOf(nats: seq<Card>, i: nat, aceLow: bool): (p: int)
    requires AllNatural(nats) && i < |nats|
    ensures 1 <= p <= 14 && RankAt(p) == nats[i].rank
  {
    if nats[i].rank != ACE then nats[i].rank
    else if AceCount(nats) == 2 && i == FirstAce(nats) then 1
    else if aceLow then 1
    else 14
  }

  function Positions(nats: seq<Card>, aceLow: bool): (r: seq<int>)
    requires AllNatural(nats)
    ensures |r| == |nats|
    ensures forall i :: 0 <= i < |r| ==> r[i] == PositionOf(nats, i, aceLow)
  {
    seq(|nats|, i requires 0 <= i < |nats| => PositionOf(nats, i, aceLow))
  }

  predicate Within(pos: seq<int>, start: int, n: int) {
    forall i :: 0 <= i < |pos| ==> start <= pos[i] < start + n
  }

  predicate Fits(pos: seq<int>, start: int, n: int) {
    Window(start, n) && Distinct(pos) && Within(pos, start, n)
  }

  // ---------------------------------------------------------------- ace counting

  lemma AceCountIsMultiplicity(nats: seq<Card>, suit: Suit)
    requires SameSuit(nats, suit)
    ensures AceCount(nats) == multiset(nats)[Natural(ACE, suit)]
  {
    forall s | s != suit
      ensures multiset(nats)[Natural(ACE, s)] == 0
    {
      if Natural(ACE, s) in nats {
        assert false;
      }
    }
  }

  lemma AceCountMonotone(cards: seq<Card>, i: int)
    requires 0 <= i <= |cards|
    ensures AceCount(cards[..i]) <= AceCount(cards)
  {
    assert cards == cards[..i] + cards[i..];
  }

  /** An ace strictly before `j` shows in the prefix. */
  lemma EarlierAce(cards: seq<Card>, i: int, j: int)
    requires 0 <= i < j <= |cards| && RankField(cards[i]) == ACE
    ensures AceCount(cards[..j]) >= AceCount(cards[..i]) + 1
  {
    AceCountSnoc(cards, i);
    AceCountMonotone(cards[..j], i + 1);
    assert cards[..j][..i + 1] == cards[..i + 1];
  }

  /** There are at least two aces; if there are just two, the earlier is the first. */
  lemma OneOfTwoAces(nats: seq<Card>, i: int, j: int)
    requires 0 <= i < j < |nats| && RankField(nats[i]) == ACE && RankField(nats[j]) == ACE
    ensures AceCount(nats) >= 2 && j != FirstAce(nats)
    ensures AceCount(nats) == 2 ==> i == FirstAce(nats)
  {
    EarlierAce(nats, i, j);
    EarlierAce(nats, j, |nats|);
    assert nats[..|nats|] == nats;
    var f := FirstAce(nats);
    if f < i {
      EarlierAce(nats, f, i);
    }
  }

  // ---------------------------------------------------------------- multiset view = position view

  lemma FitsImpliesAdmits(nats: seq<Card>, suit: Suit, aceLow: bool, start: int, n: int)
    requires SameSuit(nats, suit) && Fits(Positions(nats, aceLow), start, n)
    ensures Admits(multiset(nats), suit, start, n)
  {
    var m, pos, ace := multiset(nats), Positions(nats, aceLow), Natural(ACE, suit);
    forall x, y | 0 <= x < y < |nats| && nats[x].rank != ACE
      ensures nats[x] != nats[y]
    {
      assert pos[x] != pos[y];
    }
    forall c | c in m && c.Natural?
      ensures c.suit == suit && (c.rank != ACE ==> start <= c.rank < start + n && m[c] <= 1)
    {
      var i :| 0 <= i < |nats| && nats[i] == c;
      assert start <= pos[i] < start + n;
      if c.rank != ACE && m[c] >= 2 {
        var x, y := TwoOccurrences(nats, c);
        assert false;
      }
    }
    AceCountIsMultiplicity(nats, suit);
    if m[ace] == 1 {
      var i :| 0 <= i < |nats| && nats[i] == ace;
      assert start <= pos[i] < start + n && pos[i] in {1, 14};
    } else if m[ace] >= 2 {
      var x, y := TwoOccurrences(nats, ace);
      OneOfTwoAces(nats, x, y);
      assert start <= pos[x] < start + n && start <= pos[y] < start + n && pos[x] != pos[y];
      assert pos[x] in {1, 14} && pos[y] in {1, 14};
      assert AceCount(nats) == 2;
    }
  }

  /** The window admits the cards and `aceLow` puts a single ace at an end the window has. */
  ghost predicate ReadingFits(m: multiset<Card>, suit: Suit, aceLow: bool, start: int, n: int) {
    var aces := m[Natural(ACE, suit)];
    && Admits(m, suit, start, n)
    && (aces == 1 ==> if aceLow then start == 1 else start + n == 15)
    && (aces == 2 ==> !aceLow)
  }

  lemma ReadingImpliesFits(nats: seq<Card>, suit: Suit, aceLow: bool, start: int, n: int)
    requires SameSuit(nats, suit) && ReadingFits(multiset(nats), suit, aceLow, start, n)
    ensures Fits(Positions(nats, aceLow), start, n)
  {
    var m, ace := multiset(nats), Natural(ACE, suit);
    var pos := Positions(nats, aceLow);
    AceCountIsMultiplicity(nats, suit);
    forall i | 0 <= i < |pos|
      ensures start <= pos[i] < start + n
    {
      assert nats[i] in m;
      if nats[i] == ace {
        assert m[ace] >= 1;
      }
    }
    forall i, j | 0 <= i < j < |pos|
      ensures pos[i] != pos[j]
    {
      if pos[i] == pos[j] {
        assert nats[i] == nats[j] && nats[i] in m;
        CountOfTwo(nats, i, j, nats[i]);
        assert nats[i] == ace;
        OneOfTwoAces(nats, i, j);
        assert false;
      }
    }
  }

  /** Which reading of the aces puts them inside the window. */
  predicate AceLowFor(nats: seq<Card>, start: int, n: int) {
    AceCount(nats) == 1 && start + n != 15
  }

  lemma AdmitsImpliesFits(nats: seq<Card>, suit: Suit, start: int, n: int)
    requires SameSuit(nats, suit) && Admits(multiset(nats), suit, start, n)
    ensures Fits(Positions(nats, AceLowFor(nats, start, n)), start, n)
  {
    AceCountIsMultiplicity(nats, suit);
    ReadingImpliesFits(nats, suit, AceLowFor(nats, start, n), start, n);
  }

  lemma SomeAce(nats: seq<Card>)
    requires AceCount(nats) >= 1
    ensures FirstAce(nats) < |nats|
  {
    var suit :| multiset(nats)[Natural(ACE, suit)] >= 1;
    assert Natural(ACE, suit) in nats;
  }

  /** One ace stands at the end its reading names. */
  lemma OneAcePosition(nats: seq<Card>, aceLow: bool)
    requires AllNatural(nats) && AceCount(nats) == 1
    ensures (if aceLow then 1 else 14) in Positions(nats, aceLow)
  {
    SomeAce(nats);
    assert Positions(nats, aceLow)[FirstAce(nats)] == if aceLow then 1 else 14;
  }

  lemma AceBesides(nats: seq<Card>, f: int) returns (i: int)
    requires AceCount(nats) >= 2 && 0 <= f < |nats|
    ensures 0 <= i < |nats| && i != f && RankField(nats[i]) == ACE
  {
    var rest := nats[..f] + nats[f + 1..];
    assert nats == nats[..f] + [nats[f]] + nats[f + 1..];
    assert AceCount(rest) >= 1;
    SomeAce(rest);
    i := FirstAce(rest);
    i := if i < f then i else i + 1;
  }

  /** Under the high reading a low ace is the first of two, and the other one is high. */
  lemma LowAceHasPartner(nats: seq<Card>)
    requires AllNatural(nats) && 1 in Positions(nats, false)
    ensures 14 in Positions(nats, false)
  {
    var i := AceBesides(nats, FirstAce(nats));
    assert Positions(nats, false)[i] == 14;
  }

  // ---------------------------------------------------------------- laying a run out

  /** The card a layout has on position p: the natural that belongs there, or a joker. */
  ghost function CardOn(m: multiset<Card>, suit: Suit, aceLow: bool, p: int): Card
    requires 1 <= p <= 14
  {
    var aces := m[Natural(ACE, suit)];
    var taken := if p == 1 then aces == 2 || (aces == 1 && aceLow)
                 else if p == 14 then aces == 2 || (aces == 1 && !aceLow)
                 else m[Natural(RankAt(p), suit)] > 0;
    if taken then Natural(RankAt(p), suit) else Joker
  }

  ghost function Layout(m: multiset<Card>, suit: Suit, aceLow: bool, start: int, n: nat): (r: seq<Card>)
    requires Window(start, n)
    ensures |r| == n && forall i :: 0 <= i < n ==> r[i] == CardOn(m, suit, aceLow, start + i)
  {
    seq(n, i requires 0 <= i < n => CardOn(m, suit, aceLow, start + i))
  }

  lemma LayoutIsArrangement(m: multiset<Card>, suit: Suit, aceLow: bool, start: int, n: nat)
    requires Window(start, n)
    ensures Arrangement(Layout(m, suit, aceLow, start, n), suit, start)
  {
  }

  /** A natural card occurs in its layout as often as in the list laid out. */
  lemma LayoutCounts(m: multiset<Card>, suit: Suit, aceLow: bool, start: int, n: nat, c: Card)
    requires ReadingFits(m, suit, aceLow, start, n) && c.Natural?
    ensures multiset(Layout(m, suit, aceLow, start, n))[c] == m[c]
  {
    var r, ace := Layout(m, suit, aceLow, start, n), Natural(ACE, suit);
    if c == ace {
      AceOccurrences(r, suit, start);
      LayoutAces(m, suit, aceLow, start, n);
    } else {
      if multiset(r)[c] >= 2 {
        var x, y := TwoOccurrences(r, c);
        assert false;
      }
      if c in m {
        assert r[c.rank - start] == c;
      } else if c in r {
        assert false;
      }
    }
  }

  lemma LayoutAces(m: multiset<Card>, suit: Suit, aceLow: bool, start: int, n: nat)
    requires ReadingFits(m, suit, aceLow, start, n)
    ensures multiset(Layout(m, suit, aceLow, start, n))[Natural(ACE, suit)] == m[Natural(ACE, suit)]
  {
    var r, ace := Layout(m, suit, aceLow, start, n), Natural(ACE, suit);
    if m[ace] == 2 {
      CountOfTwo(r, 0, n - 1, ace);
      AceOccurrences(r, suit, start);
    } else if m[ace] == 1 {
      var at := if aceLow then 0 else n - 1;
      assert r[at] == ace;
      if multiset(r)[ace] >= 2 {
        var x, y := TwoOccurrences(r, ace);
        assert false;
      }
    } else if ace in r {
      assert false;
    }
  }

  /** Laying out a list that fits rearranges it and puts every natural on its position. */
  lemma LayoutArranges(cards: seq<Card>, suit: Suit, aceLow: bool, start: int)
    requires ReadingFits(multiset(cards), suit, aceLow, start, |cards|)
    ensures ArrangesAt(cards, Layout(multiset(cards), suit, aceLow, start, |cards|), suit, start)
  {
    var m, n := multiset(cards), |cards|;
    var r := Layout(m, suit, aceLow, start, n);
    var left, right := multiset(r)[Joker := 0], m[Joker := 0];
    forall c: Card
      ensures left[c] == right[c]
    {
      if c.Natural? {
        LayoutCounts(m, suit, aceLow, start, n, c);
      }
    }
    SameButJokers(r, cards);
    LayoutIsArrangement(m, suit, aceLow, start, n);
  }

  // ---------------------------------------------------------------- multiset view = arrangement view

  /** In an arrangement a card other than the ace can only stand in one place, an ace in two. */
  lemma ArrangementAdmits(a: seq<Card>, suit: Suit, start: int)
    requires Arrangement(a, suit, start) && 1 <= |a| < 15
    ensures Admits(multiset(a), suit, start, |a|)
  {
    var m, n, ace := multiset(a), |a|, Natural(ACE, suit);
    forall c | c in m && c.Natural?
      ensures c.suit == suit && (c.rank != ACE ==> start <= c.rank < start + n && m[c] <= 1)
    {
      var i :| 0 <= i < n && a[i] == c;
      if c.rank != ACE && m[c] >= 2 {
        var x, y := TwoOccurrences(a, c);
        assert false;
      }
    }
    AceOccurrences(a, suit, start);
  }

  lemma AceOccurrences(a: seq<Card>, suit: Suit, start: int)
    requires Arrangement(a, suit, start)
    ensures multiset(a)[Natural(ACE, suit)] <= AceSlots(start, |a|)
  {
    var ace, n := Natural(ACE, suit), |a|;
    if multiset(a)[ace] == 1 {
      var i :| 0 <= i < n && a[i] == ace;
      assert start + i == 1 || start + i == 14;
    } else if multiset(a)[ace] >= 2 {
      var x, y := TwoOccurrences(a, ace);
      assert start + x == 1 && start + y == 14;
      assert y == n - 1 && x == 0;
      var inner := a[1..n - 1];
      assert a == [a[0]] + inner + [a[n - 1]];
      assert forall i :: 0 <= i < |inner| ==> inner[i] == a[i + 1] && a[i + 1] != ace;
    }
  }

  /** The naturals of a list decide whether it is admitted. */
  lemma AdmitsByNaturals(m: multiset<Card>, m': multiset<Card>, suit: Suit, start: int, n: int)
    requires m[Joker := 0] == m'[Joker := 0]
    ensures Admits(m, suit, start, n) <==> Admits(m', suit, start, n)
  {
    forall c: Card | c.Natural?
      ensures m[c] == m'[c]
    {
      assert m[Joker := 0][c] == m'[Joker := 0][c];
    }
  }

  lemma AdmitsNaturals(cards: seq<Card>, nats: seq<Card>, suit: Suit, start: int, n: int)
    requires NaturalPart(nats, cards)
    ensures Admits(multiset(cards), suit, start, n) <==> Admits(multiset(nats), suit, start, n)
  {
    assert multiset(nats)[Joker := 0] == multiset(nats) by {
      assert forall c :: c in nats ==> c.Natural?;
      assert multiset(nats)[Joker] == 0;
    }
    AdmitsByNaturals(multiset(cards), multiset(nats), suit, start, n);
  }

  lemma AdmitsSameSuit(cards: seq<Card>, nats: seq<Card>, suit: Suit, start: int, n: int)
    requires NaturalPart(nats, cards) && Admits(multiset(cards), suit, start, n)
    ensures SameSuit(nats, suit)
  {
    AdmitsNaturals(cards, nats, suit, start, n);
    assert forall i :: 0 <= i < |nats| ==> nats[i] in multiset(nats);
  }

  ghost predicate LowFor(m: multiset<Card>, suit: Suit, start: int, n: int) {
    m[Natural(ACE, suit)] == 1 && start + n != 15
  }

  /** The declarative arrangement exists exactly when the multiset is admitted. */
  lemma AdmitsIffArranges(cards: seq<Card>, suit: Suit, start: int)
    requires 1 <= |cards| < 15
    ensures Admits(multiset(cards), suit, start, |cards|) <==> exists a :: ArrangesAt(cards, a, suit, start)
  {
    if Admits(multiset(cards), suit, start, |cards|) {
      LayoutArranges(cards, suit, LowFor(multiset(cards), suit, start, |cards|), start);
    }
    if a :| ArrangesAt(cards, a, suit, start) {
      SameMultisetSameLength(a, cards);
      ArrangementAdmits(a, suit, start);
    }
  }

  lemma RunIffAdmitted(cards: seq<Card>)
    ensures IsRun(cards) <==>
            3 <= |cards| <= 14 && exists suit, start :: Admits(multiset(cards), suit, start, |cards|)
  {
    if IsRun(cards) {
      var a, suit, start :| ArrangesAt(cards, a, suit, start);
      AdmitsIffArranges(cards, suit, start);
    }
    if 3 <= |cards| <= 14 {
      if suit, start :| Admits(multiset(cards), suit, start, |cards|) {
        AdmitsIffArranges(cards, suit, start);
      }
    }
  }
}
