/** Hands that win on the spot: twelve cards of one suit, or six pairs (state.go). */
module SpecialHands {
  import opened Cards
  import opened Piles

  // ---------------------------------------------------------------- one suit

  predicate OneSuit(cards: seq<Card>) {
    |cards| == INITIAL_HAND_SIZE &&
    forall i, j :: 0 <= i < |cards| && 0 <= j < |cards| && cards[i].Natural? && cards[j].Natural? ==>
      cards[i].suit == cards[j].suit
  }

  method HasSameSuitCollection(cards: seq<Card>) returns (r: bool)
    ensures r <==> OneSuit(cards)
  {
    if |cards| != INITIAL_HAND_SIZE {
      return false;
    }
    var firstSuitSet, suit := false, Hearts;
    ghost var first := 0;
    for i := 0 to |cards|
      invariant firstSuitSet ==> 0 <= first < i && cards[first].Natural? && cards[first].suit == suit
      invariant forall j :: 0 <= j < i && cards[j].Natural? ==> firstSuitSet && cards[j].suit == suit
    {
      if cards[i].Joker? {
        continue;
      }
      if !firstSuitSet {
        suit, firstSuitSet, first := cards[i].suit, true, i;
        continue;
      }
      if cards[i].suit != suit {
        return false;
      }
    }
    return true;
  }

  // ---------------------------------------------------------------- six pairs

  predicate Pairs(a: Card, b: Card) {
    a == b || a.Joker? || b.Joker?
  }

  /** The cards laid out two by two, each two equal or completed by a joker. */
  predicate PairedUp(p: seq<Card>) {
    |p| % 2 == 0 && forall k :: 0 <= k < |p| / 2 ==> Pairs(p[2 * k], p[2 * k + 1])
  }

  ghost predicate CanPairUp(cards: seq<Card>) {
    exists p :: multiset(p) == multiset(cards) && PairedUp(p)
  }

  ghost predicate SixPairs(cards: seq<Card>) {
    |cards| == INITIAL_HAND_SIZE && CanPairUp(cards)
  }

  /** The natural cards held an odd number of times. */
  ghost function Odd(m: multiset<Card>): set<Card> {
    set c | c in m && c.Natural? && m[c] % 2 == 1
  }

  lemma OddMore(m: multiset<Card>, c: Card)
    ensures c.Joker? ==> Odd(m + multiset{c}) == Odd(m)
    ensures c.Natural? ==> Odd(m + multiset{c}) == if c in Odd(m) then Odd(m) - {c} else Odd(m) + {c}
    ensures |Odd(m + multiset{c})| <= |Odd(m)| + (if c.Natural? then 1 else 0)
  {
    var n := m + multiset{c};
    assert forall x: Card :: n[x] == m[x] + if x == c then 1 else 0;
  }

  lemma OddTwice(m: multiset<Card>, c: Card)
    ensures Odd(m + multiset{c, c}) == Odd(m)
  {
    OddMore(m, c);
    OddMore(m + multiset{c}, c);
    assert m + multiset{c, c} == m + multiset{c} + multiset{c};
  }

  lemma PairAdds(m: multiset<Card>, a: Card, b: Card)
    requires Pairs(a, b) && |Odd(m)| <= m[Joker]
    ensures var n := m + multiset{a, b}; |Odd(n)| <= n[Joker]
  {
    var n := m + multiset{a, b};
    assert n == m + multiset{a} + multiset{b};
    if a == b {
      OddTwice(m, a);
    } else {
      OddMore(m, a);
      OddMore(m + multiset{a}, b);
    }
  }

  lemma {:induction false} PairedUpHasFewOdd(p: seq<Card>)
    requires PairedUp(p)
    ensures |Odd(multiset(p))| <= multiset(p)[Joker]
  {
    if p == [] {
      assert Odd(multiset(p)) == {};
    } else {
      var n := |p| - 2;
      assert p == p[..n] + [p[n], p[n + 1]];
      assert Pairs(p[2 * (n / 2)], p[2 * (n / 2) + 1]);
      PairedUpHasFewOdd(p[..n]);
      PairAdds(multiset(p[..n]), p[n], p[n + 1]);
      assert multiset(p) == multiset(p[..n]) + multiset{p[n], p[n + 1]};
    }
  }

  lemma AddPair(rest: seq<Card>, a: Card, b: Card)
    requires PairedUp(rest) && Pairs(a, b)
    ensures PairedUp(rest + [a, b]) && multiset(rest + [a, b]) == multiset(rest) + multiset{a, b}
  {
  }

  lemma WithoutPair(m: multiset<Card>, a: Card, b: Card)
    requires multiset{a, b} <= m
    ensures var n := m - multiset{a, b}; m == n + multiset{a, b} && m == n + multiset{b} + multiset{a}
  {
    var n := m - multiset{a, b};
    forall x: Card
      ensures m[x] == (n + multiset{a, b})[x] && m[x] == (n + multiset{b} + multiset{a})[x]
    {
    }
  }

  lemma TakeEqual(m: multiset<Card>, c: Card)
    requires |Odd(m)| <= m[Joker] && c.Natural? && m[c] >= 2
    ensures var n := m - multiset{c, c}; m == n + multiset{c, c} && |Odd(n)| <= n[Joker]
  {
    WithoutPair(m, c, c);
    OddTwice(m - multiset{c, c}, c);
  }

  lemma TakeWithJoker(m: multiset<Card>, c: Card)
    requires |Odd(m)| <= m[Joker] && c.Natural? && m[c] == 1
    ensures var n := m - multiset{c, Joker}; m == n + multiset{c, Joker} && |Odd(n)| <= n[Joker]
  {
    assert c in Odd(m);
    assert Joker in m;
    WithoutPair(m, c, Joker);
    var n := m - multiset{c, Joker};
    OddMore(n, Joker);
    OddMore(n + multiset{Joker}, c);
    assert c !in Odd(n);
  }

  lemma TakeJokers(m: multiset<Card>)
    requires |m| >= 2 && forall c: Card :: c.Natural? ==> c !in m
    ensures var n := m - multiset{Joker, Joker}; m == n + multiset{Joker, Joker} && |Odd(n)| <= n[Joker]
  {
    var rest := m[Joker := 0];
    assert rest == multiset{};
    assert |rest| == |m| - m[Joker];
    WithoutPair(m, Joker, Joker);
    assert Odd(m - multiset{Joker, Joker}) == {};
  }

  /** Take two equal naturals, else a natural and a joker, else two jokers. */
  lemma TakePair(m: multiset<Card>) returns (a: Card, b: Card)
    requires |m| >= 2 && |Odd(m)| <= m[Joker]
    ensures var n := m - multiset{a, b}; Pairs(a, b) && m == n + multiset{a, b} && |Odd(n)| <= n[Joker]
  {
    hide Odd;
    if c: Card :| c.Natural? && m[c] >= 2 {
      a, b := c, c;
      TakeEqual(m, c);
    } else if c: Card :| c.Natural? && c in m {
      a, b := c, Joker;
      TakeWithJoker(m, c);
    } else {
      a, b := Joker, Joker;
      TakeJokers(m);
    }
  }

  lemma {:induction false} FewOddPairUp(m: multiset<Card>) returns (p: seq<Card>)
    requires |m| % 2 == 0 && |Odd(m)| <= m[Joker]
    ensures multiset(p) == m && PairedUp(p)
    decreases |m|
  {
    if |m| == 0 {
      p := [];
    } else {
      var a, b := TakePair(m);
      var n := m - multiset{a, b};
      assert |n| == |m| - 2;
      var rest := FewOddPairUp(n);
      AddPair(rest, a, b);
      p := rest + [a, b];
    }
  }

  /** An even number of cards falls into pairs exactly when the jokers cover the odd cards. */
  lemma PairsIffJokersCover(cards: seq<Card>)
    requires |cards| % 2 == 0
    ensures CanPairUp(cards) <==> |Odd(multiset(cards))| <= JokerCount(cards)
  {
    if p :| multiset(p) == multiset(cards) && PairedUp(p) {
      PairedUpHasFewOdd(p);
    }
    if |Odd(multiset(cards))| <= JokerCount(cards) {
      var p := FewOddPairUp(multiset(cards));
    }
  }

  ghost predicate CountsOf(counts: map<Card, nat>, cards: seq<Card>) {
    forall c: Card :: (c in counts <==> c.Natural? && c in multiset(cards)) && (c in counts ==>
       counts[c] == multiset(cards)[c])
  }

  method CountNaturals(cards: seq<Card>) returns (counts: map<Card, nat>, jokerCount: nat)
    ensures CountsOf(counts, cards) && jokerCount == JokerCount(cards)
  {
    counts, jokerCount := map[], 0;
    for i := 0 to |cards|
      invariant CountsOf(counts, cards[..i]) && jokerCount == JokerCount(cards[..i])
    {
      assert cards[..i + 1] == cards[..i] + [cards[i]];
      if cards[i].Joker? {
        jokerCount := jokerCount + 1;
        continue;
      }
      counts := counts[cards[i] := (if cards[i] in counts then counts[cards[i]] else 0) + 1];
    }
    assert cards[..|cards|] == cards;
  }

  method HasSixIdenticalPairs(cards: seq<Card>) returns (r: bool)
    ensures r <==> SixPairs(cards)
  {
    if |cards| != INITIAL_HAND_SIZE {
      return false;
    }
    var counts, jokerCount := CountNaturals(cards);
    var oddCount, left := 0, counts.Keys;
    ghost var seen: set<Card> := {};
    while left != {}
      invariant left <= counts.Keys && seen == (set c | c in counts && c !in left && counts[c] % 2 == 1)
      invariant oddCount == |seen|
    {
      var c :| c in left;
      left := left - {c};
      if counts[c] % 2 != 0 {
        oddCount, seen := oddCount + 1, seen + {c};
      }
    }
    assert seen == Odd(multiset(cards));
    PairsIffJokersCover(cards);
    return jokerCount >= oddCount;
  }

  method HasSpecialWinningHand(cards: seq<Card>) returns (r: bool)
    ensures r <==> OneSuit(cards) || SixPairs(cards)
  {
    r := HasSameSuitCollection(cards);
    if !r {
      r := HasSixIdenticalPairs(cards);
    }
  }
}
