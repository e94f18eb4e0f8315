/** The validity algorithms of composition.go: the set scan, the counting check for
    runs without jokers, and the sort-and-fill pass for runs with jokers. */
module RunFitting {
  import opened Cards
  import opened RunSpec

  // ---------------------------------------------------------------- sets

  predicate SetShape(cards: seq<Card>) {
    forall i, j :: 0 <= i < j < |cards| && cards[i].Natural? && cards[j].Natural? ==>
      cards[i].rank == cards[j].rank && cards[i].suit != cards[j].suit
  }

  /** Four cards with a joker among them leave a suit free. */
  lemma FreeSuit(cards: seq<Card>, joker: int) returns (suit: Suit)
    requires |cards| <= 4 && 0 <= joker < |cards| && cards[joker].Joker?
    ensures forall i :: 0 <= i < |cards| && cards[i].Natural? ==> cards[i].suit != suit
  {
    if forall i :: 0 <= i < |cards| && cards[i].Natural? ==> cards[i].suit != Hearts { return Hearts; }
    if forall i :: 0 <= i < |cards| && cards[i].Natural? ==> cards[i].suit != Diamonds { return Diamonds; }
    if forall i :: 0 <= i < |cards| && cards[i].Natural? ==> cards[i].suit != Clubs { return Clubs; }
    suit := Spades;
  }

  /** Jokers can be replaced one after the other as long as the naturals have the shape. */
  lemma {:induction false} FillSet(cards: seq<Card>, rank: Rank) returns (full: seq<Card>)
    requires |cards| <= 4 && SetShape(cards)
    requires forall i :: 0 <= i < |cards| && cards[i].Natural? ==> cards[i].rank == rank
    ensures Substitutes(cards, full) && NaturalSet(full)
    decreases JokerCount(cards)
  {
    if k :| 0 <= k < |cards| && cards[k].Joker? {
      var suit := FreeSuit(cards, k);
      var next := cards[k := Natural(rank, suit)];
      UpdateMultiset(cards, k, Natural(rank, suit));
      assert cards[k] in multiset(cards);
      full := FillSet(next, rank);
    } else {
      full := cards;
    }
  }

  lemma SetIffShape(cards: seq<Card>)
    ensures IsSet(cards) <==> 3 <= |cards| <= 4 && SetShape(cards)
  {
    if 3 <= |cards| <= 4 && SetShape(cards) {
      var rank: Rank := ACE;
      if k :| 0 <= k < |cards| && cards[k].Natural? {
        rank := cards[k].rank;
      }
      var full := FillSet(cards, rank);
    }
  }

  method IsValidSet(cards: seq<Card>) returns (valid: bool)
    ensures valid <==> IsSet(cards)
  {
    hide IsSet;
    SetIffShape(cards);
    if |cards| < 3 || |cards| > 4 {
      return false;
    }
    var firstRank: int, hasRank := 0, false;
    var seenSuits: set<Suit> := {};
    for i := 0 to |cards|
      invariant SetShape(cards[..i])
      invariant hasRank <==> exists j :: 0 <= j < i && cards[j].Natural?
      invariant forall j :: 0 <= j < i && cards[j].Natural? ==> cards[j].rank == firstRank && cards[j].suit in seenSuits
      invariant forall suit :: suit in seenSuits ==>
                  exists j :: 0 <= j < i && cards[j].Natural? && cards[j].suit == suit
    {
      var card := cards[i];
      if card.Joker? {
        continue;
      }
      if hasRank && card.rank != firstRank {
        return false;
      }
      firstRank, hasRank := card.rank, true;
      if card.suit in seenSuits {
        return false;
      }
      seenSuits := seenSuits + {card.suit};
    }
    assert cards[..|cards|] == cards;
    return true;
  }

  // ---------------------------------------------------------------- runs without jokers

  function Expected(q: int, start: int, n: int): nat
    requires 1 <= q <= 13
  {
    if q == ACE then AceSlots(start, n) else if start <= q < start + n then 1 else 0
  }

  /** A joker-free list fills an admitted window completely. */
  lemma AdmitsExactly(nats: seq<Card>, suit: Suit, start: int)
    requires SameSuit(nats, suit) && 1 <= |nats| < 15
    requires Admits(multiset(nats), suit, start, |nats|)
    ensures forall q :: 1 <= q <= 13 ==> multiset(nats)[Natural(q, suit)] == Expected(q, start, |nats|)
  {
    var m, n := multiset(nats), |nats|;
    AdmitsIffArranges(nats, suit, start);
    var a :| ArrangesAt(nats, a, suit, start);
    SameMultisetSameLength(a, nats);
    forall i | 0 <= i < n
      ensures a[i] == Natural(RankAt(start + i), suit) && m[a[i]] >= 1
    {
      assert a[i] in multiset(a) && a[i] in nats;
    }
    if AceSlots(start, n) == 2 {
      CountOfTwo(a, 0, n - 1, Natural(ACE, suit));
    }
    forall q | 1 <= q <= 13
      ensures m[Natural(q, suit)] == Expected(q, start, n)
    {
      if q != ACE && start <= q < start + n {
        assert a[q - start] == Natural(q, suit);
      } else if q == ACE {
        assert start == 1 ==> a[0] == Natural(ACE, suit);
        assert start + n == 15 ==> a[n - 1] == Natural(ACE, suit);
      }
    }
  }

  lemma ExactAdmits(nats: seq<Card>, suit: Suit, start: int)
    requires SameSuit(nats, suit) && 1 <= |nats| && Window(start, |nats|)
    requires forall q :: 1 <= q <= 13 ==> multiset(nats)[Natural(q, suit)] == Expected(q, start, |nats|)
    ensures Admits(multiset(nats), suit, start, |nats|)
  {
    var m := multiset(nats);
    forall c | c in m && c.Natural?
      ensures c.suit == suit && (c.rank != ACE ==> start <= c.rank < start + |nats| && m[c] <= 1)
    {
      var i :| 0 <= i < |nats| && nats[i] == c;
      assert m[Natural(c.rank, suit)] == Expected(c.rank, start, |nats|);
    }
    assert m[Natural(ACE, suit)] == Expected(ACE, start, |nats|);
  }

  ghost predicate CountsOf(counts: seq<int>, cards: seq<Card>, suit: Suit) {
    |counts| == 15 && forall q :: 1 <= q <= 13 ==> counts[q] == multiset(cards)[Natural(q, suit)]
  }

  /** The counting loop; a repeated rank other than the ace ends it early. */
  method CountRanks(cards: seq<Card>, ghost suit: Suit) returns (counts: array<int>, repeated: bool)
    requires SameSuit(cards, suit)
    ensures !repeated ==> CountsOf(counts[..], cards, suit)
    ensures repeated ==> exists c :: c in cards && c.rank != ACE && multiset(cards)[c] >= 2
  {
    counts := new int[15](_ => 0);
    for i := 0 to |cards|
      invariant CountsOf(counts[..], cards[..i], suit)
    {
      var rank := cards[i].rank;
      assert cards[..i + 1] == cards[..i] + [cards[i]];
      counts[rank] := counts[rank] + 1;
      if rank != ACE && counts[rank] > 1 {
        assert multiset(cards)[cards[i]] >= 2 by {
          assert cards == cards[..i + 1] + cards[i + 1..];
        }
        assert cards[i] in cards;
        return counts, true;
      }
    }
    assert cards[..|cards|] == cards;
    repeated := false;
  }

  /** The inner loop over positions: do the counts fill exactly this window? */
  method WindowMatches(counts: seq<int>, start: int, n: int) returns (valid: bool)
    requires |counts| == 15 && Window(start, n)
    ensures valid <==> forall q :: 1 <= q <= 13 ==> counts[q] == Expected(q, start, n)
  {
    for sequenceRank := 1 to 15
      invariant forall q :: 1 <= q < sequenceRank && q <= 13 ==> counts[q] == Expected(q, start, n)
    {
      var rank := RankAt(sequenceRank);
      var expected := if start <= sequenceRank < start + n then 1 else 0;
      if rank == ACE {
        if sequenceRank == 1 {
          if start + n - 1 == 14 {
            expected := expected + 1;
          }
          if counts[ACE] != expected {
            return false;
          }
        }
        continue;
      }
      if counts[rank] != expected {
        return false;
      }
    }
    return true;
  }

  method NaturalRunIsValid(cards: seq<Card>, ghost suit: Suit) returns (valid: bool)
    requires SameSuit(cards, suit) && 1 <= |cards| <= 14
    ensures valid <==> exists start :: Admits(multiset(cards), suit, start, |cards|)
  {
    var n := |cards|;
    var buffer, repeated := CountRanks(cards, suit);
    if repeated {
      ghost var c :| c in cards && c.rank != ACE && multiset(cards)[c] >= 2;
      assert c in multiset(cards);
      return false;
    }
    var counts := buffer[..];
    for start := 1 to 16 - n
      invariant forall s :: 1 <= s < start ==> !Admits(multiset(cards), suit, s, n)
    {
      valid := WindowMatches(counts, start, n);
      if valid {
        ExactAdmits(cards, suit, start);
        return true;
      }
      if Admits(multiset(cards), suit, start, n) {
        AdmitsExactly(cards, suit, start);
        assert false;
      }
    }
    return false;
  }

  // ---------------------------------------------------------------- sorting and filling gaps

  predicate SortedSeq(s: seq<int>) {
    forall i, j :: 0 <= i < j < |s| ==> s[i] <= s[j]
  }

  function Insert(s: seq<int>, x: int): (r: seq<int>)
    ensures |r| == |s| + 1
  {
    if s == [] || s[|s| - 1] <= x then s + [x]
    else Insert(s[..|s| - 1], x) + [s[|s| - 1]]
  }

  lemma {:induction false} InsertKeeps(s: seq<int>, x: int)
    ensures forall y :: multiset(Insert(s, x))[y] == multiset(s)[y] + (if y == x then 1 else 0)
  {
    if s != [] && s[|s| - 1] > x {
      var k := |s| - 1;
      InsertKeeps(s[..k], x);
      assert s == s[..k] + [s[k]];
    }
  }

  lemma {:induction false} InsertSorts(s: seq<int>, x: int)
    requires SortedSeq(s)
    ensures SortedSeq(Insert(s, x))
  {
    if s != [] && s[|s| - 1] > x {
      var k := |s| - 1;
      InsertSorts(s[..k], x);
      InsertKeeps(s[..k], x);
      var t := Insert(s[..k], x);
      forall i | 0 <= i < |t|
        ensures t[i] <= s[k]
      {
        assert multiset(t)[t[i]] > 0;
        assert t[i] == x || t[i] in s[..k];
      }
    }
  }

  /** The library sort: the sorted list with the same elements. */
  function Sorted(s: seq<int>): (r: seq<int>)
    ensures |r| == |s|
  {
    if s == [] then [] else Insert(Sorted(s[..|s| - 1]), s[|s| - 1])
  }

  lemma {:induction false} SortedSorts(s: seq<int>)
    ensures SortedSeq(Sorted(s)) && multiset(Sorted(s)) == multiset(s)
  {
    if s != [] {
      var k := |s| - 1;
      SortedSorts(s[..k]);
      assert s == s[..k] + [s[k]];
      InsertSorts(Sorted(s[..k]), s[k]);
      InsertKeeps(Sorted(s[..k]), s[k]);
    }
  }

  function WindowSeq(start: int, n: nat): (r: seq<int>)
    ensures |r| == n && forall i :: 0 <= i < n ==> r[i] == start + i
  {
    seq(n, i => start + i)
  }

  /** Distinctness and the bounds of a list only depend on its elements. */
  lemma FitsSorted(pos: seq<int>, sorted: seq<int>, start: int, n: int)
    requires multiset(pos) == multiset(sorted)
    ensures Fits(pos, start, n) <==> Fits(sorted, start, n)
  {
    FitsOneWay(pos, sorted, start, n);
    FitsOneWay(sorted, pos, start, n);
  }

  lemma FitsOneWay(pos: seq<int>, other: seq<int>, start: int, n: int)
    requires multiset(pos) == multiset(other)
    ensures Fits(pos, start, n) ==> Fits(other, start, n)
  {
    if !Fits(pos, start, n) {
      return;
    }
    forall i | 0 <= i < |other|
      ensures start <= other[i] < start + n
    {
      assert other[i] in multiset(pos);
    }
    forall i, j | 0 <= i < j < |other|
      ensures other[i] != other[j]
    {
      if other[i] == other[j] {
        CountOfTwo(other, i, j, other[i]);
        var x, y := TwoOccurrences(pos, other[i]);
        assert false;
      }
    }
  }
}
