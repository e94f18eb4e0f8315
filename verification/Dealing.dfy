/** Dealing twelve cards to every active player, one at a time or in blocks, after cutting the
    pile (dealInitialHands and its helpers in state.go). */
module Dealing {
  import opened Cards
  import opened NumberLists
  import opened Piles
  import opened Rotation
  import opened RoundScoring

  datatype DealType = RoundRobin | InBlocks | UnknownDeal

  datatype DealError = NotEnoughCards | BadCutSize | BadDealer | BadOrder | BadDealType

  // ---------------------------------------------------------------- active seats

  /** Seats of the players still in the game, in seat order. */
  function ActiveIndexes(players: seq<Player>): (r: seq<int>)
    ensures forall k :: 0 <= k < |r| ==> 0 <= r[k] < |players| && !players[r[k]].forfeited
    ensures forall a, b :: 0 <= a < b < |r| ==> r[a] < r[b]
  {
    if players == [] then []
    else
      var k := |players| - 1;
      ActiveIndexes(players[..k]) + if players[k].forfeited then [] else [k]
  }

  lemma {:induction false} EveryActiveIndex(players: seq<Player>, i: nat)
    requires i < |players| && !players[i].forfeited
    ensures i in ActiveIndexes(players)
  {
    var k := |players| - 1;
    if i < k {
      EveryActiveIndex(players[..k], i);
    }
  }

  method ActivePlayerIndexes(players: seq<Player>) returns (indexes: seq<int>)
    ensures indexes == ActiveIndexes(players)
  {
    indexes := [];
    for index := 0 to |players|
      invariant indexes == ActiveIndexes(players[..index])
    {
      assert players[..index + 1][..index] == players[..index];
      if !players[index].forfeited {
        indexes := indexes + [index];
      }
    }
    assert players[..|players|] == players;
  }

  // ---------------------------------------------------------------- dealing cards to seats

  predicate Seats(targets: seq<int>, n: nat) {
    forall k :: 0 <= k < |targets| ==> 0 <= targets[k] < n
  }

  function Given(players: seq<Player>, seat: int, c: Card): seq<Player>
    requires 0 <= seat < |players|
  {
    players[seat := players[seat].(hand := players[seat].hand + [c])]
  }

  /** The k-th card goes to the k-th seat of `targets`. */
  function Deal(players: seq<Player>, targets: seq<int>, cards: seq<Card>): (r: seq<Player>)
    requires Seats(targets, |players|) && |targets| <= |cards|
    ensures |r| == |players|
  {
    if targets == [] then players
    else
      var k := |targets| - 1;
      Given(Deal(players, targets[..k], cards), targets[k], cards[k])
  }

  lemma {:induction false} DealOnlyHands(players: seq<Player>, targets: seq<int>, cards: seq<Card>, i: nat)
    requires Seats(targets, |players|) && |targets| <= |cards| && i < |players|
    ensures Deal(players, targets, cards)[i] == players[i].(hand := Deal(players, targets, cards)[i].hand)
  {
    if targets != [] {
      DealOnlyHands(players, targets[..|targets| - 1], cards, i);
    }
  }

  function HandCards(players: seq<Player>): multiset<Card> {
    if players == [] then multiset{} else HandCards(players[..|players| - 1]) + multiset(players[|players| - 1].hand)
  }

  lemma {:induction false} HandCardsUpdate(players: seq<Player>, i: nat, p: Player)
    requires i < |players|
    ensures multiset(players[i].hand) <= HandCards(players)
    ensures HandCards(players[i := p]) == HandCards(players) - multiset(players[i].hand) + multiset(p.hand)
  {
    var k := |players| - 1;
    if i == k {
      assert players[i := p][..k] == players[..k];
    } else {
      HandCardsUpdate(players[..k], i, p);
      assert players[i := p][..k] == players[..k][i := p];
      Exchanged(HandCards(players[..k]), multiset(players[i].hand), multiset(p.hand), multiset(players[k].hand));
    }
  }

  lemma Exchanged(m: multiset<Card>, x: multiset<Card>, y: multiset<Card>, z: multiset<Card>)
    requires x <= m
    ensures x <= m + z && m - x + y + z == m + z - x + y
  {
  }

  lemma GivenCard(players: seq<Player>, seat: int, c: Card)
    requires 0 <= seat < |players|
    ensures HandCards(Given(players, seat, c)) == HandCards(players) + multiset{c}
  {
    var hand := players[seat].hand;
    HandCardsUpdate(players, seat, players[seat].(hand := hand + [c]));
    var m, x := HandCards(players), multiset(hand);
    assert multiset(hand + [c]) == x + multiset{c};
    assert m - x + (x + multiset{c}) == m + multiset{c};
  }

  /** Dealing moves the first cards of the pile into the hands and changes nothing else. */
  lemma {:induction false} DealMovesCards(players: seq<Player>, targets: seq<int>, cards: seq<Card>)
    requires Seats(targets, |players|) && |targets| <= |cards|
    ensures HandCards(Deal(players, targets, cards)) == HandCards(players) + multiset(cards[..|targets|])
  {
    hide HandCards;
    if targets != [] {
      var k := |targets| - 1;
      DealMovesCards(players, targets[..k], cards);
      GivenCard(Deal(players, targets[..k], cards), targets[k], cards[k]);
      assert cards[..k + 1] == cards[..k] + [cards[k]];
    } else {
      assert cards[..0] == [];
    }
  }

  lemma {:induction false} DealtSize(players: seq<Player>, targets: seq<int>, cards: seq<Card>, i: nat)
    requires Seats(targets, |players|) && |targets| <= |cards| && i < |players|
    ensures |Deal(players, targets, cards)[i].hand| == |players[i].hand| + multiset(targets)[i]
  {
    if targets != [] {
      var k := |targets| - 1;
      DealtSize(players, targets[..k], cards, i);
      assert targets == targets[..k] + [targets[k]];
    }
  }

  // ---------------------------------------------------------------- the two orders

  /** The seats in dealing order: the one after the dealer first, the dealer last. */
  function Circle(active: seq<int>, dealerPosition: nat): seq<int>
    requires dealerPosition < |active|
  {
    active[dealerPosition + 1..] + active[..dealerPosition + 1]
  }

  function Rounds(circle: seq<int>, n: nat): seq<int> {
    if n == 0 then [] else Rounds(circle, n - 1) + circle
  }

  function Block(seat: int, n: nat): (r: seq<int>)
    ensures |r| == n && forall i :: 0 <= i < n ==> r[i] == seat
  {
    seq(n, _ => seat)
  }

  function Blocks(order: seq<int>): seq<int> {
    if order == [] then [] else Blocks(order[..|order| - 1]) + Block(order[|order| - 1], INITIAL_HAND_SIZE)
  }

  /** Every seat of `seats` receives a full hand, other seats nothing. */
  ghost predicate FullHands(targets: seq<int>, seats: seq<int>) {
    |targets| == INITIAL_HAND_SIZE * |seats| &&
    forall i: int :: multiset(targets)[i] == if i in seats then INITIAL_HAND_SIZE else 0
  }

  lemma {:induction false} OnceEach(s: seq<int>, i: int)
    requires Distinct(s)
    ensures multiset(s)[i] == if i in s then 1 else 0
  {
    if s != [] {
      var k := |s| - 1;
      OnceEach(s[..k], i);
      assert s == s[..k] + [s[k]];
    }
  }

  lemma OneMore(n: nat, c: nat)
    requires n > 0
    ensures (n - 1) * c + c == n * c
  {
  }

  lemma {:induction false} RoundsCount(circle: seq<int>, n: nat, i: int)
    ensures multiset(Rounds(circle, n))[i] == n * multiset(circle)[i]
  {
    if n > 0 {
      RoundsCount(circle, n - 1, i);
      OneMore(n, multiset(circle)[i]);
      assert multiset(Rounds(circle, n)) == multiset(Rounds(circle, n - 1)) + multiset(circle);
    }
  }

  lemma {:induction false} RoundsLength(circle: seq<int>, n: nat)
    ensures |Rounds(circle, n)| == n * |circle|
  {
    if n > 0 {
      RoundsLength(circle, n - 1);
      OneMore(n, |circle|);
    }
  }

  lemma RoundRobinIsFull(active: seq<int>, dealerPosition: nat)
    requires dealerPosition < |active| && Distinct(active)
    ensures FullHands(Rounds(Circle(active, dealerPosition), INITIAL_HAND_SIZE), active)
  {
    var circle := Circle(active, dealerPosition);
    assert active == active[..dealerPosition + 1] + active[dealerPosition + 1..];
    assert multiset(circle) == multiset(active);
    forall i: int
      ensures multiset(Rounds(circle, INITIAL_HAND_SIZE))[i] == if i in active then INITIAL_HAND_SIZE else 0
    {
      RoundsCount(circle, INITIAL_HAND_SIZE, i);
      OnceEach(active, i);
    }
    RoundsLength(circle, INITIAL_HAND_SIZE);
  }

  lemma BlockCount(seat: int, n: nat, i: int)
    ensures multiset(Block(seat, n))[i] == if i == seat then n else 0
    decreases n
  {
    if n > 0 {
      BlockCount(seat, n - 1, i);
      assert Block(seat, n) == Block(seat, n - 1) + [seat];
    }
  }

  lemma {:induction false} BlocksCount(order: seq<int>, i: int)
    ensures multiset(Blocks(order))[i] == INITIAL_HAND_SIZE * multiset(order)[i] &&
            |Blocks(order)| == INITIAL_HAND_SIZE * |order|
  {
    if order != [] {
      var k := |order| - 1;
      BlocksCount(order[..k], i);
      BlockCount(order[k], INITIAL_HAND_SIZE, i);
      assert order == order[..k] + [order[k]];
      assert multiset(Blocks(order))[i] ==
             multiset(Blocks(order[..k]))[i] + multiset(Block(order[k], INITIAL_HAND_SIZE))[i];
    }
  }

  /** An order names every active seat once. */
  predicate ValidOrder(order: seq<int>, active: seq<int>) {
    && |order| == |active| && (forall k :: 0 <= k < |order| ==> order[k] in active)
    && Distinct(order)
  }

  lemma OrderCovers(order: seq<int>, active: seq<int>)
    requires ValidOrder(order, active) && Distinct(active)
    ensures forall i :: i in order <==> i in active
  {
    var x, y := Elements(order), Elements(active);
    DistinctByCount(order);
    DistinctByCount(active);
    assert x <= y;
    assert |y - x| == |y| - |x|;
    assert y - x == {};
    forall i | i in active
      ensures i in order
    {
      assert i in y && i !in y - x;
    }
  }

  lemma BlocksAreFull(order: seq<int>, active: seq<int>)
    requires ValidOrder(order, active) && Distinct(active)
    ensures FullHands(Blocks(order), active)
  {
    OrderCovers(order, active);
    forall i: int
      ensures multiset(Blocks(order))[i] == if i in active then INITIAL_HAND_SIZE else 0
    {
      BlocksCount(order, i);
      OnceEach(order, i);
    }
    BlocksCount(order, 0);
  }

  // ---------------------------------------------------------------- the whole deal

  function PositionOf(s: seq<int>, x: int): (k: nat)
    ensures k <= |s| && (k < |s| ==> s[k] == x) && forall j :: 0 <= j < k ==> s[j] != x
  {
    if s == [] then 0
    else
      var n := |s| - 1;
      var k := PositionOf(s[..n], x);
      if k < n || s[n] == x then k else n + 1
  }

  /** Which seat each dealt card goes to. */
  function Targets(active: seq<int>, dt: DealType, order: Option<seq<int>>, dealer: int): Result<seq<int>, DealError> {
    match dt
    case RoundRobin =>
      var position := PositionOf(active, dealer);
      if position == |active| then Failure(BadDealer) else Success(Rounds(Circle(active, position), INITIAL_HAND_SIZE))
    case InBlocks =>
      if order.None? || !ValidOrder(order.value, active) then Failure(BadOrder) else Success(Blocks(order.value))
    case UnknownDeal => Failure(BadDealType)
  }

  lemma TargetsAreFull(active: seq<int>, dt: DealType, order: Option<seq<int>>, dealer: int)
    requires Distinct(active) && Targets(active, dt, order, dealer).Success?
    ensures FullHands(Targets(active, dt, order, dealer).value, active)
  {
    match dt
    case RoundRobin => RoundRobinIsFull(active, PositionOf(active, dealer));
    case InBlocks => BlocksAreFull(order.value, active);
    case UnknownDeal =>
  }

  lemma FullHandsAreSeats(targets: seq<int>, players: seq<Player>)
    requires FullHands(targets, ActiveIndexes(players))
    ensures Seats(targets, |players|)
  {
    forall k | 0 <= k < |targets|
      ensures 0 <= targets[k] < |players|
    {
      assert multiset(targets)[targets[k]] > 0;
    }
  }

  datatype Dealt = Dealt(players: seq<Player>, pile: seq<Card>)

  /** Cut, deal from the lower part, put the upper part under what is left. */
  ghost function InitialDeal(players: seq<Player>, pile: seq<Card>, dt: DealType, order: Option<seq<int>>,
                             dealer: int, cut: int)
    : Result<Dealt, DealError>
  {
    var active := ActiveIndexes(players);
    var targets, required := Targets(active, dt, order, dealer), INITIAL_HAND_SIZE * |active|;
    if targets.Failure? then Failure(targets.error)
    else if |pile| < required then Failure(NotEnoughCards)
    else if cut < 0 || cut > |pile| - required then Failure(BadCutSize)
    else
      TargetsAreFull(active, dt, order, dealer);
      FullHandsAreSeats(targets.value, players);
      Success(Dealt(Deal(players, targets.value, pile[cut..]), pile[cut..][required..] + pile[..cut]))
  }

  /** A successful deal gives each active player twelve cards and loses none. */
  lemma DealConserves(players: seq<Player>, pile: seq<Card>, dt: DealType, order: Option<seq<int>>, dealer: int,
                      cut: int)
    requires InitialDeal(players, pile, dt, order, dealer, cut).Success?
    ensures var d := InitialDeal(players, pile, dt, order, dealer, cut).value;
            HandCards(d.players) + multiset(d.pile) == HandCards(players) + multiset(pile) &&
            |d.pile| == |pile| - INITIAL_HAND_SIZE * |ActiveIndexes(players)| && |d.players| == |players|
    ensures var d := InitialDeal(players, pile, dt, order, dealer, cut).value;
            forall i :: 0 <= i < |players| ==>
              (d.players[i] == players[i].(hand := d.players[i].hand) &&
               |d.players[i].hand| == |players[i].hand| + if players[i].forfeited then 0 else INITIAL_HAND_SIZE)
  {
    var active := ActiveIndexes(players);
    var targets := Targets(active, dt, order, dealer).value;
    TargetsAreFull(active, dt, order, dealer);
    FullHandsAreSeats(targets, players);
    DealMovesCards(players, targets, pile[cut..]);
    PileParts(pile, cut, |targets|);
    hide HandCards, Deal, Targets;
    var d := InitialDeal(players, pile, dt, order, dealer, cut).value;
    forall i | 0 <= i < |players|
      ensures d.players[i] == players[i].(hand := d.players[i].hand)
      ensures |d.players[i].hand| == |players[i].hand| + if players[i].forfeited then 0 else INITIAL_HAND_SIZE
    {
      DealOnlyHands(players, targets, pile[cut..], i);
      DealtSize(players, targets, pile[cut..], i);
      if !players[i].forfeited {
        EveryActiveIndex(players, i);
      }
    }
  }

  lemma PileParts(pile: seq<Card>, cut: nat, n: nat)
    requires cut + n <= |pile|
    ensures multiset(pile[cut..][..n]) + multiset(pile[cut..][n..] + pile[..cut]) == multiset(pile)
    ensures |pile[cut..][n..] + pile[..cut]| == |pile| - n
  {
    assert pile == pile[..cut] + (pile[cut..][..n] + pile[cut..][n..]);
  }

  // ---------------------------------------------------------------- the source's loops

  lemma SeatsSnoc(targets: seq<int>, seat: int, n: nat)
    requires Seats(targets, n) && 0 <= seat < n
    ensures Seats(targets + [seat], n)
  {
  }

  lemma DealSnoc(players: seq<Player>, targets: seq<int>, seat: int, cards: seq<Card>)
    requires Seats(targets, |players|) && Seats(targets + [seat], |players|) && 0 <= seat < |players| &&
             |targets| < |cards|
    ensures Deal(players, targets + [seat], cards) == Given(Deal(players, targets, cards), seat, cards[|targets|])
  {
    hide Seats, Given;
    assert (targets + [seat])[..|targets + [seat]| - 1] == targets;
  }

  /** The next card of the pile goes to one seat. */
  method DealOne(players: seq<Player>, seat: int, mainPile: CardPile) returns (r: seq<Player>)
    requires 0 <= seat < |players| && mainPile.cards != []
    modifies mainPile
    ensures r == Given(players, seat, old(mainPile.cards)[0]) && mainPile.cards == old(mainPile.cards)[1..]
  {
    var card := mainPile.DrawOne();
    r := players[seat := players[seat].(hand := players[seat].hand + [card.value])];
  }

  /** The invariant of the dealing loops: the cards up to now have gone to `done`. */
  ghost predicate DealtSoFar(players: seq<Player>, start: seq<Player>, done: seq<int>, all: seq<Card>,
                             rest: seq<Card>) {
    Seats(done, |start|) && |done| <= |all| && players == Deal(start, done, all) && rest == all[|done|..]
  }

  method DealNext(players: seq<Player>, seat: int, mainPile: CardPile, ghost start: seq<Player>, ghost done: seq<int>,
                  ghost all: seq<Card>)
    returns (r: seq<Player>)
    requires DealtSoFar(players, start, done, all, mainPile.cards) && 0 <= seat < |start| && |done| < |all|
    modifies mainPile
    ensures DealtSoFar(r, start, done + [seat], all, mainPile.cards)
  {
    SeatsSnoc(done, seat, |start|);
    DealSnoc(start, done, seat, all);
    r := DealOne(players, seat, mainPile);
  }

  lemma RoundOfSeats(active: seq<int>, position: nat, k: nat)
    requires position < |active| && k < |active|
    ensures (position + k + 1) % |active| < |active|
    ensures Circle(active, position)[k] == active[(position + k + 1) % |active|]
  {
    WrapsAround(position, k + 1, |active|);
  }

  /** One card to each active player, starting after the dealer. */
  method DealRound(players: seq<Player>, activeIndexes: seq<int>, dealerPosition: nat, mainPile: CardPile,
                   ghost start: seq<Player>, ghost done: seq<int>, ghost all: seq<Card>)
    returns (r: seq<Player>)
    requires activeIndexes == ActiveIndexes(start) && dealerPosition < |activeIndexes|
    requires DealtSoFar(players, start, done, all, mainPile.cards) && |done| + |activeIndexes| <= |all|
    modifies mainPile
    ensures DealtSoFar(r, start, done + Circle(activeIndexes, dealerPosition), all, mainPile.cards)
  {
    hide DealtSoFar, Circle, Deal, Seats;
    r := players;
    ghost var circle := Circle(activeIndexes, dealerPosition);
    assert done + circle[..0] == done;
    CircleLength(activeIndexes, dealerPosition);
    for offset := 1 to |activeIndexes| + 1
      invariant DealtSoFar(r, start, done + circle[..offset - 1], all, mainPile.cards)
    {
      RoundOfSeats(activeIndexes, dealerPosition, offset - 1);
      var playerIndex := activeIndexes[(dealerPosition + offset) % |activeIndexes|];
      assert done + circle[..offset] == done + circle[..offset - 1] + [circle[offset - 1]];
      r := DealNext(r, playerIndex, mainPile, start, done + circle[..offset - 1], all);
    }
    assert circle[..|activeIndexes|] == circle;
  }

  lemma CircleLength(active: seq<int>, position: nat)
    requires position < |active|
    ensures |Circle(active, position)| == |active|
  {
  }

  lemma NothingDealt(start: seq<Player>, all: seq<Card>)
    ensures DealtSoFar(start, start, [], all, all)
  {
  }

  method FindPosition(activeIndexes: seq<int>, dealerIndex: int) returns (position: int)
    ensures var k := PositionOf(activeIndexes, dealerIndex); position == if k < |activeIndexes| then k else -1
  {
    for k := 0 to |activeIndexes|
      invariant forall j :: 0 <= j < k ==> activeIndexes[j] != dealerIndex
    {
      if activeIndexes[k] == dealerIndex {
        return k;
      }
    }
    return -1;
  }

  /** Set the upper part of the pile aside and leave at least the required cards below it. */
  method CutMainPile(pile: seq<Card>, required: int, cutSize: int) returns (mainPile: CardPile, setAside: seq<Card>,
                     error: Option<DealError>)
    ensures fresh(mainPile)
    ensures error == if |pile| < required then Some(NotEnoughCards)
                     else if cutSize < 0 || cutSize > |pile| - required then Some(BadCutSize) else None
    ensures error.None? && required >= 0 ==> setAside == pile[..cutSize] && mainPile.cards == pile[cutSize..]
  {
    mainPile := new CardPile([]);
    setAside, error := [], None;
    if |pile| < required {
      error := Some(NotEnoughCards);
      return;
    }
    if cutSize < 0 || cutSize > |pile| - required {
      error := Some(BadCutSize);
      return;
    }
    if required >= 0 {
      setAside := pile[..cutSize];
      mainPile := new CardPile(pile[cutSize..]);
    }
  }

  method DealRoundRobin(players: seq<Player>, activeIndexes: seq<int>, drawPile: CardPile, dealerIndex: int,
                        cutSize: int)
    returns (r: seq<Player>, error: Option<DealError>)
    requires activeIndexes == ActiveIndexes(players)
    modifies drawPile
    ensures Carried(InitialDeal(players, old(drawPile.cards), RoundRobin, None, dealerIndex, cutSize), players,
                    old(drawPile.cards), r, drawPile.cards, error)
  {
    hide Deal, DealtSoFar, Rounds, Circle;
    r := players;
    var required := INITIAL_HAND_SIZE * |activeIndexes|;
    var dealerPosition := FindPosition(activeIndexes, dealerIndex);
    if dealerPosition < 0 {
      return r, Some(BadDealer);
    }
    var mainPile, setAside, cut := CutMainPile(drawPile.cards, required, cutSize);
    if cut.Some? {
      return r, cut;
    }
    ghost var all, circle := mainPile.cards, Circle(activeIndexes, dealerPosition);
    NothingDealt(players, all);
    CircleLength(activeIndexes, dealerPosition);
    FirstRound(circle);
    for dealt := 0 to INITIAL_HAND_SIZE
      invariant DealtSoFar(r, players, Rounds(circle, dealt), all, mainPile.cards)
    {
      RoundsFit(circle, dealt);
      r := DealRound(r, activeIndexes, dealerPosition, mainPile, players, Rounds(circle, dealt), all);
    }
    RoundsLength(circle, INITIAL_HAND_SIZE);
    AllDealt(r, players, Rounds(circle, INITIAL_HAND_SIZE), all, mainPile.cards);
    drawPile.cards := mainPile.cards + setAside;
    return r, None;
  }

  lemma FirstRound(circle: seq<int>)
    ensures Rounds(circle, 0) == []
  {
  }

  lemma RoundsFit(circle: seq<int>, dealt: nat)
    requires dealt < INITIAL_HAND_SIZE
    ensures Rounds(circle, dealt + 1) == Rounds(circle, dealt) + circle
    ensures |Rounds(circle, dealt)| + |circle| <= INITIAL_HAND_SIZE * |circle|
  {
    RoundsLength(circle, dealt);
    var n := |circle|;
    assert dealt * n + n == (dealt + 1) * n <= INITIAL_HAND_SIZE * n;
  }

  lemma AllDealt(players: seq<Player>, start: seq<Player>, done: seq<int>, all: seq<Card>, rest: seq<Card>)
    requires DealtSoFar(players, start, done, all, rest)
    ensures Seats(done, |start|) && |done| <= |all| && players == Deal(start, done, all) && rest == all[|done|..]
  {
  }

  /** The players and the pile are those of a successful deal, and unchanged after a failed one. */
  ghost predicate Carried(d: Result<Dealt, DealError>, players: seq<Player>, pile: seq<Card>,
                          players': seq<Player>, pile': seq<Card>, error: Option<DealError>) {
    match d
    case Success(v) => error.None? && players' == v.players && pile' == v.pile
    case Failure(e) => error == Some(e) && players' == players && pile' == pile
  }

  method ValidateActiveOrder(order: seq<int>, activeIndexes: seq<int>) returns (valid: bool)
    ensures valid <==> ValidOrder(order, activeIndexes)
  {
    if |order| != |activeIndexes| {
      return false;
    }
    var active := set i | i in activeIndexes;
    var seen: set<int> := {};
    for k := 0 to |order|
      invariant seen == Elements(order[..k]) && Distinct(order[..k])
      invariant forall j :: 0 <= j < k ==> order[j] in activeIndexes
    {
      assert order[..k + 1] == order[..k] + [order[k]];
      if order[k] !in active || order[k] in seen {
        return false;
      }
      seen := seen + {order[k]};
    }
    assert order[..|order|] == order;
    return true;
  }

  /** Twelve cards in a row to one player. */
  method DealBlock(players: seq<Player>, seat: int, mainPile: CardPile, ghost start: seq<Player>,
                   ghost done: seq<int>, ghost all: seq<Card>)
    returns (r: seq<Player>)
    requires DealtSoFar(players, start, done, all, mainPile.cards) && 0 <= seat < |start| &&
             |done| + INITIAL_HAND_SIZE <= |all|
    modifies mainPile
    ensures DealtSoFar(r, start, done + Block(seat, INITIAL_HAND_SIZE), all, mainPile.cards)
  {
    hide DealtSoFar;
    r := players;
    assert done + Block(seat, 0) == done;
    for k := 0 to INITIAL_HAND_SIZE
      invariant DealtSoFar(r, start, done + Block(seat, k), all, mainPile.cards)
    {
      assert done + Block(seat, k + 1) == done + Block(seat, k) + [seat];
      r := DealNext(r, seat, mainPile, start, done + Block(seat, k), all);
    }
  }

  method DealInBlocks(players: seq<Player>, activeIndexes: seq<int>, drawPile: CardPile, order: seq<int>, cutSize: int)
    returns (r: seq<Player>, error: Option<DealError>)
    requires activeIndexes == ActiveIndexes(players)
    modifies drawPile
    ensures Carried(InitialDeal(players, old(drawPile.cards), InBlocks, Some(order), 0, cutSize), players,
                    old(drawPile.cards), r, drawPile.cards, error)
  {
    hide Deal, DealtSoFar, Blocks, Block;
    r := players;
    var required := INITIAL_HAND_SIZE * |activeIndexes|;
    var valid := ValidateActiveOrder(order, activeIndexes);
    if !valid {
      return r, Some(BadOrder);
    }
    var mainPile, setAside, cut := CutMainPile(drawPile.cards, required, cutSize);
    if cut.Some? {
      return r, cut;
    }
    ghost var all := mainPile.cards;
    NothingDealt(players, all);
    FirstBlock();
    for i := 0 to |order|
      invariant DealtSoFar(r, players, Blocks(order[..i]), all, mainPile.cards)
    {
      BlocksFit(order, i);
      assert order[i] in activeIndexes;
      r := DealBlock(r, order[i], mainPile, players, Blocks(order[..i]), all);
    }
    assert order[..|order|] == order;
    BlocksCount(order, 0);
    AllDealt(r, players, Blocks(order), all, mainPile.cards);
    drawPile.cards := mainPile.cards + setAside;
    return r, None;
  }

  lemma FirstBlock()
    ensures Blocks([]) == []
  {
  }

  lemma BlocksFit(order: seq<int>, i: nat)
    requires i < |order|
    ensures Blocks(order[..i + 1]) == Blocks(order[..i]) + Block(order[i], INITIAL_HAND_SIZE)
    ensures |Blocks(order[..i])| + INITIAL_HAND_SIZE <= INITIAL_HAND_SIZE * |order|
  {
    assert order[..i + 1][..i] == order[..i];
    BlocksCount(order[..i], 0);
  }

  method DealInitialHands(players: seq<Player>, drawPile: CardPile, dt: DealType, order: Option<seq<int>>,
                          dealerIndex: int, cutSize: int)
    returns (r: seq<Player>, error: Option<DealError>)
    requires dt == InBlocks ==> order.Some?
    modifies drawPile
    ensures Carried(InitialDeal(players, old(drawPile.cards), dt, order, dealerIndex, cutSize), players,
                    old(drawPile.cards), r, drawPile.cards, error)
  {
    hide Deal;
    var activeIndexes := ActivePlayerIndexes(players);
    match dt
    case RoundRobin => r, error := DealRoundRobin(players, activeIndexes, drawPile, dealerIndex, cutSize);
    case InBlocks => r, error := DealInBlocks(players, activeIndexes, drawPile, order.value, cutSize);
    case UnknownDeal => r, error := players, Some(BadDealType);
  }
}
