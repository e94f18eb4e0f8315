/** Cards, card points and the double deck (card.go, deck.go). */
module Cards {

  datatype Suit = Hearts | Diamonds | Clubs | Spades

  const ACE := 1
  const TWO := 2
  const TEN := 10
  const JACK := 11
  const KING := 13

  type Rank = r: int | 1 <= r <= 13 witness 1

  datatype Card = Joker | Natural(rank: Rank, suit: Suit)

  datatype Option<T> = None | Some(value: T)

  datatype Result<T, E> = Success(value: T) | Failure(error: E)

  const SUITS: seq<Suit> := [Hearts, Diamonds, Clubs, Spades]

  /** The rank and suit fields of the source's record: a joker leaves both at zero. */
  function RankField(c: Card): int {
    if c.Joker? then 0 else c.rank
  }

  function SuitField(c: Card): Suit {
    if c.Joker? then Hearts else c.suit
  }

  /** The source compares rank and suit only; on dealt cards that is plain equality. */
  predicate CardsEqual(a: Card, b: Card): (r: bool)
    ensures r <==> a == b
  {
    RankField(a) == RankField(b) && SuitField(a) == SuitField(b)
  }

  function CardPoints(c: Card): nat {
    if c.Joker? then 20
    else if JACK <= c.rank <= KING then 10
    else if c.rank == ACE then 10
    else c.rank
  }

  /** Points of a rank on the table, where an ace may count low. */
  function RankPoints(rank: int, aceLow: bool): nat {
    if rank == ACE then (if aceLow then 1 else 10)
    else if JACK <= rank <= KING then 10
    else if TWO <= rank <= TEN then rank
    else 0
  }

  // ---------------------------------------------------------------- naturals and jokers

  function JokerCount(cards: seq<Card>): nat {
    multiset(cards)[Joker]
  }

  predicate AllNatural(cards: seq<Card>) {
    forall i :: 0 <= i < |cards| ==> cards[i].Natural?
  }

  /** `nats` holds the cards of `cards` that are not jokers. */
  ghost predicate NaturalPart(nats: seq<Card>, cards: seq<Card>) {
    AllNatural(nats) && |nats| + JokerCount(cards) == |cards| &&
    multiset(nats) == multiset(cards)[Joker := 0]
  }

  lemma NaturalPartSnoc(nats: seq<Card>, cards: seq<Card>, c: Card)
    requires NaturalPart(nats, cards)
    ensures NaturalPart(if c.Joker? then nats else nats + [c], cards + [c])
  {
    var next := if c.Joker? then nats else nats + [c];
    var m, m' := multiset(next), multiset(cards + [c])[Joker := 0];
    assert multiset(cards + [c]) == multiset(cards) + multiset{c};
    forall x: Card
      ensures m[x] == m'[x]
    {
      assert multiset(nats)[x] == if x.Joker? then 0 else multiset(cards)[x];
    }
  }

  /** Lists of one length that agree on their naturals agree on their jokers too. */
  lemma SameButJokers(a: seq<Card>, b: seq<Card>)
    requires |a| == |b| && multiset(a)[Joker := 0] == multiset(b)[Joker := 0]
    ensures multiset(a) == multiset(b)
  {
    var x, y := multiset(a), multiset(b);
    assert |x[Joker := 0]| == |x| - x[Joker] && |y[Joker := 0]| == |y| - y[Joker];
    assert x == x[Joker := 0][Joker := x[Joker]] && y == y[Joker := 0][Joker := y[Joker]];
  }

  /** The source's split of a list into natural cards and a number of jokers. */
  method SplitJokers(cards: seq<Card>) returns (realCards: seq<Card>, jokerCount: nat)
    ensures NaturalPart(realCards, cards) && jokerCount == JokerCount(cards)
  {
    realCards, jokerCount := [], 0;
    assert multiset([]) == multiset(cards[..0])[Joker := 0];
    for i := 0 to |cards|
      invariant NaturalPart(realCards, cards[..i]) && jokerCount == JokerCount(cards[..i])
    {
      assert cards[..i + 1] == cards[..i] + [cards[i]];
      NaturalPartSnoc(realCards, cards[..i], cards[i]);
      if cards[i].Joker? {
        jokerCount := jokerCount + 1;
      } else {
        realCards := realCards + [cards[i]];
      }
    }
    assert cards[..|cards|] == cards;
  }

  // ---------------------------------------------------------------- counting helpers

  lemma {:induction false} CountOfTwo<T>(s: seq<T>, i: int, j: int, c: T)
    requires 0 <= i < j < |s| && s[i] == c && s[j] == c
    ensures multiset(s)[c] >= 2
  {
    assert s == s[..j] + [c] + s[j + 1..];
    assert s[..j][i] == c;
    assert multiset(s[..j])[c] >= 1;
  }

  lemma {:induction false} TwoOccurrences<T>(s: seq<T>, c: T) returns (i: int, j: int)
    requires multiset(s)[c] >= 2
    ensures 0 <= i < j < |s| && s[i] == c && s[j] == c
  {
    var k := |s| - 1;
    assert s == s[..k] + [s[k]];
    if s[k] == c {
      assert c in multiset(s[..k]);
      i :| 0 <= i < k && s[..k][i] == c;
      j := k;
    } else {
      i, j := TwoOccurrences(s[..k], c);
    }
  }

  lemma UpdateMultiset<T>(s: seq<T>, i: int, c: T)
    requires 0 <= i < |s|
    ensures multiset(s[i := c]) == multiset(s) - multiset{s[i]} + multiset{c}
  {
    assert s == s[..i] + [s[i]] + s[i + 1..];
    assert s[i := c] == s[..i] + [c] + s[i + 1..];
  }

  /** Two lists with the same multiset have the same length. */
  lemma SameMultisetSameLength<T>(a: seq<T>, b: seq<T>)
    requires multiset(a) == multiset(b)
    ensures |a| == |b|
  {
    assert |multiset(a)| == |a| && |multiset(b)| == |b|;
  }

  // ---------------------------------------------------------------- the deck

  function SuitCards(suit: Suit): seq<Card> {
    seq(13, i requires 0 <= i < 13 => Natural(i + 1, suit))
  }

  function DeckCards(): (r: seq<Card>)
    ensures |r| == 54
  {
    SuitCards(Hearts) + SuitCards(Diamonds) + SuitCards(Clubs) + SuitCards(Spades) + [Joker, Joker]
  }

  ghost function DoubleDeck(): multiset<Card> {
    multiset(DeckCards() + DeckCards())
  }

  lemma SuitCardsCount(suit: Suit, c: Card)
    ensures multiset(SuitCards(suit))[c] == if c.Natural? && c.suit == suit then 1 else 0
  {
    var s := SuitCards(suit);
    if c.Natural? && c.suit == suit {
      assert s[c.rank - 1] == c;
      if multiset(s)[c] >= 2 {
        var i, j := TwoOccurrences(s, c);
        assert false;
      }
    } else if c in s {
      assert false;
    }
  }

  /** Every natural card occurs exactly twice and there are four jokers: 108 cards. */
  lemma DoubleDeckCounts(c: Card)
    ensures DoubleDeck()[c] == if c.Joker? then 4 else 2
    ensures |DoubleDeck()| == 108
  {
    SuitCardsCount(Hearts, c);
    SuitCardsCount(Diamonds, c);
    SuitCardsCount(Clubs, c);
    SuitCardsCount(Spades, c);
  }

  method NewDeck() returns (cards: seq<Card>)
    ensures cards == DeckCards()
  {
    cards := [];
    for s := 0 to 4
      invariant cards == (if s > 0 then SuitCards(Hearts) else []) + (if s > 1 then SuitCards(Diamonds) else [])
                         + (if s > 2 then SuitCards(Clubs) else []) + (if s > 3 then SuitCards(Spades) else [])
    {
      ghost var before := cards;
      for rank := ACE to KING + 1
        invariant cards == before + SuitCards(SUITS[s])[..rank - 1]
      {
        cards := cards + [Natural(rank, SUITS[s])];
      }
      assert cards == before + SuitCards(SUITS[s]);
    }
    cards := cards + [Joker, Joker];
  }

  method NewGameDeck() returns (cards: seq<Card>)
    ensures multiset(cards) == DoubleDeck() && |cards| == 108
  {
    cards := [];
    for i := 0 to 2
      invariant cards == (if i > 0 then DeckCards() else []) + (if i > 1 then DeckCards() else [])
    {
      var deck := NewDeck();
      cards := cards + deck;
    }
  }
}
