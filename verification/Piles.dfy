/** Card piles and hands (card_pile.go, hand.go). */
module Piles {
  import opened Cards

  const INITIAL_HAND_SIZE := 12

  class CardPile {
    var cards: seq<Card>

    constructor (cards: seq<Card>)
      ensures this.cards == cards
    {
      this.cards := cards;
    }

    method DrawOne() returns (r: Option<Card>)
      modifies this
      ensures old(cards) == [] ==> r == None && cards == []
      ensures old(cards) != [] ==> r == Some(old(cards)[0]) && old(cards) == [r.value] + cards
    {
      if |cards| == 0 {
        return None;
      }
      var card := cards[0];
      cards := cards[1..];
      return Some(card);
    }

    /** Grow by one, shift everything down, write the first place. */
    method AddToTop(c: Card)
      modifies this
      ensures cards == [c] + old(cards)
    {
      cards := cards + [c];
      for i := 1 to |cards|
        invariant |cards| == |old(cards)| + 1
        invariant forall k :: 1 <= k < |cards| - i + 1 && k < |old(cards)| ==> cards[k] == old(cards)[k]
        invariant forall k :: |cards| - i + 1 <= k < |cards| ==> cards[k] == old(cards)[k - 1]
        invariant i < |cards| ==> |old(cards)| > 0 && cards[0] == old(cards)[0]
      {
        var k := |cards| - i;
        cards := cards[k := cards[k - 1]];
      }
      cards := cards[0 := c];
    }

    /** Shuffling leaves some order of the same cards. */
    method Shuffle(order: seq<Card>)
      requires multiset(order) == multiset(cards)
      modifies this
      ensures cards == order
    {
      cards := order;
    }
  }

  // ---------------------------------------------------------------- removing cards

  /** The index of the first occurrence, or the length. */
  function FirstIndex(s: seq<Card>, c: Card): (i: nat)
    ensures i <= |s| && (i < |s| ==> s[i] == c) && forall k :: 0 <= k < i ==> s[k] != c
  {
    if s == [] then 0
    else
      var k := |s| - 1;
      var i := FirstIndex(s[..k], c);
      if i < k || s[k] == c then i else k + 1
  }

  function WithoutAt(s: seq<Card>, i: nat): (r: seq<Card>)
    requires i < |s|
    ensures |r| == |s| - 1
  {
    s[..i] + s[i + 1..]
  }

  lemma WithoutAtCards(s: seq<Card>, i: nat)
    requires i < |s|
    ensures multiset(WithoutAt(s, i)) == multiset(s) - multiset{s[i]}
    ensures multiset(s) == multiset(WithoutAt(s, i)) + multiset{s[i]}
  {
    assert s == s[..i] + [s[i]] + s[i + 1..];
  }

  /** Take the targets out one after the other, always the first card that equals the target. */
  function RemoveEach(s: seq<Card>, targets: seq<Card>): Option<seq<Card>> {
    if targets == [] then Some(s)
    else
      var k := |targets| - 1;
      var r := RemoveEach(s, targets[..k]);
      if r.None? then None
      else
        var i := FirstIndex(r.value, targets[k]);
        if i < |r.value| then Some(WithoutAt(r.value, i)) else None
  }

  /** Removal is multiset subtraction, and it fails exactly when a card is missing. */
  lemma {:induction false} RemoveEachSubtracts(s: seq<Card>, targets: seq<Card>)
    ensures RemoveEach(s, targets).Some? <==> multiset(targets) <= multiset(s)
    ensures RemoveEach(s, targets).Some? ==>
              multiset(RemoveEach(s, targets).value) == multiset(s) - multiset(targets) &&
              |RemoveEach(s, targets).value| + |targets| == |s|
  {
    if targets != [] {
      var k := |targets| - 1;
      RemoveEachSubtracts(s, targets[..k]);
      PrefixOfTargets(targets);
      if RemoveEach(s, targets[..k]).Some? {
        RemoveOneMore(multiset(s), multiset(targets[..k]), RemoveEach(s, targets[..k]).value, targets[k]);
      }
    }
  }

  lemma PrefixOfTargets(targets: seq<Card>)
    requires targets != []
    ensures var k := |targets| - 1;
            multiset(targets) == multiset(targets[..k]) + multiset{targets[k]} &&
            multiset(targets[..k]) <= multiset(targets)
  {
    var k := |targets| - 1;
    assert targets == targets[..k] + [targets[k]];
  }

  lemma RemoveOneMore(m: multiset<Card>, front: multiset<Card>, r: seq<Card>, c: Card)
    requires front <= m && multiset(r) == m - front
    ensures var i := FirstIndex(r, c);
            (i < |r| <==> front + multiset{c} <= m) &&
            (i < |r| ==> multiset(WithoutAt(r, i)) == m - (front + multiset{c}))
  {
    hide WithoutAt;
    var i := FirstIndex(r, c);
    MinusOneMore(m, front, c);
    if i < |r| {
      assert r[i] in multiset(r);
      WithoutAtCards(r, i);
    } else {
      NotAmong(r, c);
    }
  }

  lemma MinusOneMore(m: multiset<Card>, front: multiset<Card>, c: Card)
    requires front <= m
    ensures front + multiset{c} <= m <==> (m - front)[c] > 0
    ensures front + multiset{c} <= m ==> m - front - multiset{c} == m - (front + multiset{c})
  {
    if (m - front)[c] > 0 {
      forall x: Card
        ensures (front + multiset{c})[x] <= m[x]
      {
      }
    } else {
      assert (front + multiset{c})[c] > m[c];
    }
  }

  lemma NotAmong(s: seq<Card>, c: Card)
    requires forall k :: 0 <= k < |s| ==> s[k] != c
    ensures multiset(s)[c] == 0
  {
    if c in s {
      assert false;
    }
  }

  class Hand {
    var cards: seq<Card>

    constructor (cards: seq<Card>)
      ensures this.cards == cards
    {
      this.cards := cards;
    }

    method Draw(pile: CardPile) returns (drawn: bool)
      modifies this, pile
      ensures drawn <==> old(pile.cards) != []
      ensures drawn ==> pile.cards == old(pile.cards)[1..] && cards == old(cards) + [old(pile.cards)[0]]
      ensures !drawn ==> cards == old(cards) && pile.cards == old(pile.cards)
    {
      var card := pile.DrawOne();
      if card.None? {
        return false;
      }
      cards := cards + [card.value];
      return true;
    }

    method RemoveAt(index: int) returns (r: Option<Card>)
      modifies this
      ensures r.Some? <==> 0 <= index < |old(cards)|
      ensures r.Some? ==> r.value == old(cards)[index] && cards == WithoutAt(old(cards), index)
      ensures r.None? ==> cards == old(cards)
    {
      if index < 0 || index >= |cards| {
        return None;
      }
      r := Some(cards[index]);
      cards := cards[..index] + cards[index + 1..];
    }

    /** All the targets leave the hand, or nothing does. */
    method RemoveCards(targets: seq<Card>) returns (removed: bool)
      modifies this
      ensures removed <==> multiset(targets) <= multiset(old(cards))
      ensures removed ==> RemoveEach(old(cards), targets) == Some(cards) &&
                          multiset(cards) == multiset(old(cards)) - multiset(targets)
      ensures !removed ==> cards == old(cards)
    {
      RemoveEachSubtracts(cards, targets);
      var temp := cards;
      for k := 0 to |targets|
        invariant RemoveEach(cards, targets[..k]) == Some(temp)
        invariant cards == old(cards)
      {
        assert targets[..k + 1][..k] == targets[..k];
        var next := RemoveFirst(temp, targets[k]);
        if next.None? {
          RemovalFails(cards, targets, k);
          return false;
        }
        temp := next.value;
      }
      assert targets[..|targets|] == targets;
      cards := temp;
      return true;
    }

    /** A lone ace left in hand costs one point. */
    method Points() returns (total: nat)
      ensures total == HandPoints(cards)
    {
      if |cards| == 1 && RankField(cards[0]) == ACE {
        return 1;
      }
      total := 0;
      for i := 0 to |cards|
        invariant total == PointSum(cards[..i])
      {
        assert cards[..i + 1][..i] == cards[..i];
        total := total + CardPoints(cards[i]);
      }
      assert cards[..|cards|] == cards;
    }
  }

  /** The inner loop: find the first equal card and close the gap it leaves. */
  method RemoveFirst(temp: seq<Card>, target: Card) returns (r: Option<seq<Card>>)
    ensures var i := FirstIndex(temp, target); r == if i < |temp| then Some(WithoutAt(temp, i)) else None
  {
    for i := 0 to |temp|
      invariant forall j :: 0 <= j < i ==> temp[j] != target
    {
      if CardsEqual(temp[i], target) {
        return Some(temp[..i] + temp[i + 1..]);
      }
    }
    return None;
  }

  /** A target missing part-way makes the whole removal fail. */
  lemma {:induction false} RemovalFails(s: seq<Card>, targets: seq<Card>, k: nat)
    requires k < |targets| && RemoveEach(s, targets[..k + 1]) == None
    ensures RemoveEach(s, targets) == None
    decreases |targets|
  {
    if k + 1 < |targets| {
      var front := targets[..|targets| - 1];
      assert front[..k + 1] == targets[..k + 1];
      RemovalFails(s, front, k);
    } else {
      assert targets[..k + 1] == targets;
    }
  }

  function PointSum(cards: seq<Card>): nat {
    if cards == [] then 0 else PointSum(cards[..|cards| - 1]) + CardPoints(cards[|cards| - 1])
  }

  function HandPoints(cards: seq<Card>): nat {
    if |cards| == 1 && RankField(cards[0]) == ACE then 1 else PointSum(cards)
  }
}
