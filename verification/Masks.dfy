/** Bit masks over a list of cards, as the discard search uses them (cardsForMask in state.go). */
module Masks {
  import opened Cards

  function Pow2(n: nat): (r: nat)
    ensures r > 0
  {
    if n == 0 then 1 else 2 * Pow2(n - 1)
  }

  /** Bit `i` of a mask. */
  predicate Bit(mask: nat, i: nat) {
    if i == 0 then mask % 2 == 1 else Bit(mask / 2, i - 1)
  }

  function And(a: nat, b: nat): nat {
    if a == 0 || b == 0 then 0 else 2 * And(a / 2, b / 2) + (if a % 2 == 1 && b % 2 == 1 then 1 else 0)
  }

  function Or(a: nat, b: nat): (r: nat)
    ensures a > 0 || b > 0 ==> r > 0
  {
    if a == 0 then b
    else if b == 0 then a
    else 2 * Or(a / 2, b / 2) + (if a % 2 == 1 || b % 2 == 1 then 1 else 0)
  }

  function OnesCount(mask: nat): nat {
    if mask == 0 then 0 else mask % 2 + OnesCount(mask / 2)
  }

  /** The cards whose bits are set, in the order of the list. */
  function MaskCards(cards: seq<Card>, mask: nat): (r: seq<Card>)
    ensures |r| <= |cards|
  {
    if cards == [] then []
    else
      var k := |cards| - 1;
      MaskCards(cards[..k], mask) + (if Bit(mask, k) then [cards[k]] else [])
  }

  // ---------------------------------------------------------------- bits

  lemma {:induction false} ZeroBits(i: nat)
    ensures !Bit(0, i)
  {
    if i > 0 {
      ZeroBits(i - 1);
    }
  }

  lemma {:induction false} AndBits(a: nat, b: nat, i: nat)
    ensures Bit(And(a, b), i) <==> Bit(a, i) && Bit(b, i)
  {
    ZeroBits(i);
    if a != 0 && b != 0 && i > 0 {
      AndBits(a / 2, b / 2, i - 1);
    }
  }

  lemma {:induction false} OrBits(a: nat, b: nat, i: nat)
    ensures Bit(Or(a, b), i) <==> Bit(a, i) || Bit(b, i)
  {
    ZeroBits(i);
    if a != 0 && b != 0 && i > 0 {
      OrBits(a / 2, b / 2, i - 1);
    }
  }

  lemma {:induction false} Pow2Bits(n: nat, i: nat)
    ensures Bit(Pow2(n), i) <==> i == n
  {
    if n == 0 {
      if i > 0 {
        ZeroBits(i - 1);
      }
    } else if i > 0 {
      Pow2Bits(n - 1, i - 1);
    }
  }

  /** A union of masks below a power of two stays below it. */
  lemma {:induction false} OrBelow(a: nat, b: nat, n: nat)
    requires a < Pow2(n) && b < Pow2(n)
    ensures Or(a, b) < Pow2(n)
  {
    if n > 0 {
      OrBelow(a / 2, b / 2, n - 1);
    }
  }

  lemma {:induction false} Pow2Grows(m: nat, n: nat)
    requires m < n
    ensures Pow2(m) < Pow2(n)
    decreases n
  {
    if m < n - 1 {
      Pow2Grows(m, n - 1);
    }
  }

  lemma {:induction false} HighBitsClear(mask: nat, n: nat, i: nat)
    requires mask < Pow2(n) && n <= i
    ensures !Bit(mask, i)
  {
    if n == 0 {
      ZeroBits(i);
    } else {
      HighBitsClear(mask / 2, n - 1, i - 1);
    }
  }

  lemma {:induction false} SomeBit(mask: nat) returns (i: nat)
    requires mask != 0
    ensures Bit(mask, i)
  {
    if mask % 2 == 1 {
      i := 0;
    } else {
      var j := SomeBit(mask / 2);
      i := j + 1;
    }
  }

  // ---------------------------------------------------------------- counting bits

  function BitsBelow(mask: nat, n: nat): nat {
    if n == 0 then 0 else BitsBelow(mask, n - 1) + (if Bit(mask, n - 1) then 1 else 0)
  }

  lemma {:induction false} BitsBelowHalf(mask: nat, n: nat)
    ensures BitsBelow(mask, n + 1) == mask % 2 + BitsBelow(mask / 2, n)
  {
    if n > 0 {
      BitsBelowHalf(mask, n - 1);
    }
  }

  lemma {:induction false} OnesBelow(mask: nat, n: nat)
    requires mask < Pow2(n)
    ensures OnesCount(mask) == BitsBelow(mask, n)
  {
    if n > 0 {
      OnesBelow(mask / 2, n - 1);
      BitsBelowHalf(mask, n - 1);
    }
  }

  lemma {:induction false} MaskSize(cards: seq<Card>, mask: nat)
    ensures |MaskCards(cards, mask)| == BitsBelow(mask, |cards|)
  {
    if cards != [] {
      MaskSize(cards[..|cards| - 1], mask);
    }
  }

  /** A mask over the list selects as many cards as it has bits. */
  lemma MaskCardsCount(cards: seq<Card>, mask: nat)
    requires mask < Pow2(|cards|)
    ensures |MaskCards(cards, mask)| == OnesCount(mask)
  {
    MaskSize(cards, mask);
    OnesBelow(mask, |cards|);
  }

  lemma {:induction false} DisjointOnes(a: nat, b: nat)
    requires And(a, b) == 0
    ensures OnesCount(Or(a, b)) == OnesCount(a) + OnesCount(b)
  {
    if a != 0 && b != 0 {
      DisjointOnes(a / 2, b / 2);
    }
  }

  lemma {:induction false} OnesOfNonzero(mask: nat)
    requires mask > 0
    ensures OnesCount(mask) > 0
  {
    if mask % 2 == 0 {
      OnesOfNonzero(mask / 2);
    }
  }

  lemma {:induction false} OneBit(k: nat)
    ensures OnesCount(Pow2(k)) == 1
  {
    if k > 0 {
      OneBit(k - 1);
    }
  }

  // ---------------------------------------------------------------- selected cards

  /** Disjoint masks select disjoint occurrences: their union selects the sum. */
  lemma {:induction false} DisjointMasksAdd(cards: seq<Card>, a: nat, b: nat)
    requires And(a, b) == 0
    ensures multiset(MaskCards(cards, Or(a, b))) == multiset(MaskCards(cards, a)) + multiset(MaskCards(cards, b))
  {
    if cards != [] {
      var k := |cards| - 1;
      DisjointMasksAdd(cards[..k], a, b);
      AndBits(a, b, k);
      OrBits(a, b, k);
      ZeroBits(k);
    }
  }

  lemma {:induction false} MaskCardsSubset(cards: seq<Card>, mask: nat)
    ensures multiset(MaskCards(cards, mask)) <= multiset(cards)
  {
    if cards != [] {
      var k := |cards| - 1;
      MaskCardsSubset(cards[..k], mask);
      assert cards == cards[..k] + [cards[k]];
    }
  }

  lemma {:induction false} MaskCardsSingle(cards: seq<Card>, i: nat)
    ensures MaskCards(cards, Pow2(i)) == if i < |cards| then [cards[i]] else []
  {
    if cards != [] {
      MaskCardsSingle(cards[..|cards| - 1], i);
      Pow2Bits(i, |cards| - 1);
    }
  }

  lemma {:induction false} BitSelects(cards: seq<Card>, mask: nat, i: nat)
    requires i < |cards| && Bit(mask, i)
    ensures cards[i] in MaskCards(cards, mask)
  {
    var k := |cards| - 1;
    if i < k {
      BitSelects(cards[..k], mask, i);
    }
  }

  /** Write the selected cards to the front of a shared buffer. */
  method CardsForMask(availableCards: seq<Card>, mask: nat, buf: array<Card>) returns (n: nat)
    requires |availableCards| <= buf.Length
    modifies buf
    ensures n <= buf.Length && buf[..n] == MaskCards(availableCards, mask)
  {
    n := 0;
    for i := 0 to |availableCards|
      invariant n <= i && buf[..n] == MaskCards(availableCards[..i], mask)
    {
      assert availableCards[..i + 1][..i] == availableCards[..i];
      if Bit(mask, i) {
        buf[n] := availableCards[i];
        n := n + 1;
      }
    }
    assert availableCards[..|availableCards|] == availableCards;
  }
}
