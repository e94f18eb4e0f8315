/** How a round begins: who deals, who is served which cards, and who is to move. */
module RoundStarts {
  import opened Cards
  import opened NumberLists
  import opened Piles
  import opened Rotation
  import opened SpecialHands
  import opened RoundScoring
  import opened GameModel
  import opened GameInvariants
  import opened RoundResults
  import D = Dealing

  // ---------------------------------------------------------------- one card, one block

  lemma OneDealt(players: seq<Player>, done: seq<int>, seat: int, cards: seq<Card>, i: int)
    requires D.Seats(done, |players|) && 0 <= seat < |players| && |done| < |cards| && 0 <= i < |players|
    ensures D.Seats(done + [seat], |players|)
    ensures D.Deal(players, done + [seat], cards)[i].hand ==
            D.Deal(players, done, cards)[i].hand + if i == seat then [cards[|done|]] else []
  {
    hide D.Seats, D.Deal;
    D.SeatsSnoc(done, seat, |players|);
    D.DealSnoc(players, done, seat, cards);
  }

  lemma LongerBlock(done: seq<int>, seat: int, n: nat)
    ensures done + D.Block(seat, n + 1) == (done + D.Block(seat, n)) + [seat]
    ensures done + D.Block(seat, 0) == done
  {
  }

  /** A block goes to its seat in pile order, after the cards dealt before. */
  lemma {:induction false} BlockDealt(players: seq<Player>, done: seq<int>, seat: int, n: nat, cards: seq<Card>, i: int)
    requires D.Seats(done, |players|) && 0 <= seat < |players| && |done| + n <= |cards| && 0 <= i < |players|
    ensures D.Seats(done + D.Block(seat, n), |players|)
    ensures D.Deal(players, done + D.Block(seat, n), cards)[i].hand ==
            D.Deal(players, done, cards)[i].hand + if i == seat then cards[|done|..|done| + n] else []
    decreases n
  {
    hide D.Seats, D.Deal, D.Block;
    if n == 0 {
      LongerBlock(done, seat, 0);
    } else {
      BlockDealt(players, done, seat, n - 1, cards, i);
      LongerBlock(done, seat, n - 1);
      OneDealt(players, done + D.Block(seat, n - 1), seat, cards, i);
      assert cards[|done|..|done| + n] == cards[|done|..|done| + n - 1] + [cards[|done| + n - 1]];
    }
  }

  // ---------------------------------------------------------------- one card each

  /** The place of a seat in the list, if it is there. */
  function PlaceIn(seats: seq<int>, i: int): int {
    var k := D.PositionOf(seats, i);
    if k < |seats| then k else -1
  }

  lemma PlaceBelow(seats: seq<int>, i: int)
    ensures -1 <= PlaceIn(seats, i) < |seats|
  {
  }

  lemma PlaceOfLast(seats: seq<int>, i: int)
    requires seats != [] && Distinct(seats)
    ensures var k := |seats| - 1;
            PlaceIn(seats, i) == (if seats[k] == i then k else PlaceIn(seats[..k], i)) &&
            (seats[k] == i ==> PlaceIn(seats[..k], i) == -1)
  {
    var k := |seats| - 1;
    forall j | 0 <= j < k
      ensures seats[j] != seats[k]
    {
    }
  }

  /** Each seat of the list gets the card of its place. */
  lemma {:induction false} EachGetsOne(players: seq<Player>, done: seq<int>, seats: seq<int>, cards: seq<Card>, i: int)
    requires D.Seats(done, |players|) && D.Seats(seats, |players|) && Distinct(seats) && 0 <= i < |players|
    requires |done| + |seats| <= |cards|
    ensures D.Seats(done + seats, |players|)
    ensures var k := PlaceIn(seats, i);
            D.Deal(players, done + seats, cards)[i].hand ==
            D.Deal(players, done, cards)[i].hand + if k >= 0 then [cards[|done| + k]] else []
  {
    hide D.Deal;
    if seats == [] {
      assert done + seats == done;
    } else {
      var n := |seats| - 1;
      EachGetsOne(players, done, seats[..n], cards, i);
      assert done + seats == (done + seats[..n]) + [seats[n]];
      OneDealt(players, done + seats[..n], seats[n], cards, i);
      PlaceOfLast(seats, i);
    }
  }

  /** Every `n`-th card from place `k` on. */
  function EveryNth(cards: seq<Card>, n: nat, k: nat, rounds: nat): (r: seq<Card>)
    requires k < n && rounds * n <= |cards|
    ensures |r| == rounds
  {
    if rounds == 0 then []
    else
      NthInRange(n, k, rounds, |cards|);
      EveryNth(cards, n, k, rounds - 1) + [cards[(rounds - 1) * n + k]]
  }

  lemma NthInRange(n: nat, k: nat, rounds: nat, size: nat)
    requires k < n && rounds > 0 && rounds * n <= size
    ensures (rounds - 1) * n <= size && 0 <= (rounds - 1) * n + k < size
  {
    assert rounds * n == (rounds - 1) * n + n;
  }

  lemma {:induction false} RoundsServe(players: seq<Player>, circle: seq<int>, rounds: nat, cards: seq<Card>, i: int)
    requires D.Seats(circle, |players|) && Distinct(circle) && 0 <= i < |players| && rounds * |circle| <= |cards|
    ensures D.Seats(D.Rounds(circle, rounds), |players|) && |D.Rounds(circle, rounds)| == rounds * |circle|
    ensures var k := PlaceIn(circle, i);
            D.Deal(players, D.Rounds(circle, rounds), cards)[i].hand ==
            players[i].hand + if k >= 0 then EveryNth(cards, |circle|, k, rounds) else []
  {
    D.RoundsLength(circle, rounds);
    if rounds > 0 {
      assert (rounds - 1) * |circle| + |circle| == rounds * |circle|;
      RoundsServe(players, circle, rounds - 1, cards, i);
      EachGetsOne(players, D.Rounds(circle, rounds - 1), circle, cards, i);
    }
  }

  lemma {:induction false} NthAt(cards: seq<Card>, n: nat, k: nat, rounds: nat, r: nat)
    requires k < n && rounds * n <= |cards| && r < rounds
    ensures 0 <= r * n + k < |cards| && EveryNth(cards, n, k, rounds)[r] == cards[r * n + k]
  {
    NthInRange(n, k, rounds, |cards|);
    if r < rounds - 1 {
      NthAt(cards, n, k, rounds - 1, r);
    }
  }

  // ---------------------------------------------------------------- blocks

  lemma {:induction false} BlocksServe(players: seq<Player>, order: seq<int>, cards: seq<Card>, i: int)
    requires D.Seats(order, |players|) && Distinct(order) && 0 <= i < |players| &&
             INITIAL_HAND_SIZE * |order| <= |cards|
    ensures D.Seats(D.Blocks(order), |players|) && |D.Blocks(order)| == INITIAL_HAND_SIZE * |order|
    ensures var k := PlaceIn(order, i);
            D.Deal(players, D.Blocks(order), cards)[i].hand ==
            players[i].hand + if k >= 0 then cards[INITIAL_HAND_SIZE * k..INITIAL_HAND_SIZE * (k + 1)] else []
  {
    hide D.Deal, D.Block, PlaceIn, Distinct;
    D.BlocksCount(order, 0);
    ShorterOrder(order, |players|);
    if order != [] {
      var n := |order| - 1;
      BlocksServe(players, order[..n], cards, i);
      BlockDealt(players, D.Blocks(order[..n]), order[n], INITIAL_HAND_SIZE, cards, i);
      PlaceOfLast(order, i);
      PlaceBelow(order[..n], i);
    } else {
      NothingServed(players, cards, i);
      NoPlace(i);
    }
  }

  lemma ShorterOrder(order: seq<int>, n: nat)
    requires D.Seats(order, n) && Distinct(order)
    ensures order != [] ==> D.Seats(order[..|order| - 1], n) && Distinct(order[..|order| - 1])
  {
  }

  lemma NoPlace(i: int)
    ensures PlaceIn([], i) == -1
  {
  }

  lemma NothingServed(players: seq<Player>, cards: seq<Card>, i: int)
    requires 0 <= i < |players|
    ensures D.Deal(players, [], cards)[i].hand == players[i].hand
  {
  }

  // ---------------------------------------------------------------- the order of the seats

  lemma {:induction false} OnlyActive(players: seq<Player>, i: int)
    ensures i in D.ActiveIndexes(players) <==> 0 <= i < |players| && !players[i].forfeited
  {
    if 0 <= i < |players| && !players[i].forfeited {
      D.EveryActiveIndex(players, i);
    }
  }

  /** The list of active seats goes round the table. */
  lemma ActiveInTurn(players: seq<Player>, a: nat)
    requires a < |D.ActiveIndexes(players)|
    ensures var active := D.ActiveIndexes(players);
            IsNext(ActiveFlags(players), active[a], active[if a + 1 < |active| then a + 1 else 0])
  {
    var active, flags, n := D.ActiveIndexes(players), ActiveFlags(players), |players|;
    var b := if a + 1 < |active| then a + 1 else 0;
    var k: nat := if a + 1 < |active| then active[b] - active[a] else n - active[a] + active[b];
    forall j: nat | 1 <= j < k
      ensures !IsActive(flags, Forward(active[a], j, n))
    {
      var seat := Forward(active[a], j, n);
      OnlyActive(players, seat);
      if seat in active {
        var c :| 0 <= c < |active| && active[c] == seat;
        NoneBetween(active, a, c);
      }
    }
    assert FirstAhead(flags, active[a], k);
    assert Forward(active[a], k, n) == active[b];
  }

  /** In an ascending list a value lies at or below the one at `a`, or at or above the one after it. */
  lemma NoneBetween(active: seq<int>, a: nat, c: nat)
    requires a < |active| && c < |active| && forall i, j :: 0 <= i < j < |active| ==> active[i] < active[j]
    ensures active[c] <= active[a] || (a + 1 < |active| && active[c] >= active[a + 1])
    ensures active[0] <= active[c]
  {
  }

  // ---------------------------------------------------------------- the whole deal

  /** The active seats from the one after the dealer round to the dealer. */
  function CircleFrom(players: seq<Player>, dealer: int): (r: seq<int>)
    requires dealer in D.ActiveIndexes(players)
    ensures |r| == |D.ActiveIndexes(players)|
  {
    D.Circle(D.ActiveIndexes(players), D.PositionOf(D.ActiveIndexes(players), dealer))
  }

  /** Each of them sits next after the one before, the first next after the dealer, who comes last. */
  lemma CircleInTurn(players: seq<Player>, dealer: int, j: nat)
    requires dealer in D.ActiveIndexes(players) && j < |D.ActiveIndexes(players)|
    ensures var circle := CircleFrom(players, dealer);
            circle[|circle| - 1] == dealer &&
            IsNext(ActiveFlags(players), if j == 0 then dealer else circle[j - 1], circle[j])
  {
    hide D.ActiveIndexes, D.Circle, IsNext;
    var active := D.ActiveIndexes(players);
    var position, n := D.PositionOf(active, dealer), |active|;
    var before := if position + j < n then position + j else position + j - n;
    CircleAt(active, position, j);
    CircleAt(active, position, n - 1);
    if j > 0 {
      CircleAt(active, position, j - 1);
    }
    ActiveInTurn(players, before);
  }

  lemma CircleAt(active: seq<int>, position: nat, j: nat)
    requires position < |active| && j < |active|
    ensures var k, n := position + 1 + j, |active|;
            |D.Circle(active, position)| == n && D.Circle(active, position)[j] == active[if k < n then k else k - n]
  {
  }

  /** A deal succeeds exactly if it is one of the two kinds, its seats are in order, and the cut leaves enough. */
  lemma DealIff(players: seq<Player>, pile: seq<Card>, dt: D.DealType, order: Option<seq<int>>, dealer: int, cut: int)
    ensures var active := D.ActiveIndexes(players);
            D.InitialDeal(players, pile, dt, order, dealer, cut).Success? <==>
              (if dt == D.RoundRobin then dealer in active
               else dt == D.InBlocks && order.Some? && D.ValidOrder(order.value, active)) &&
              0 <= cut && cut + 12 * |active| <= |pile|
  {
    var active := D.ActiveIndexes(players);
    var position := D.PositionOf(active, dealer);
    assert dealer in active <==> position < |active|;
  }

  lemma DistinctActive(players: seq<Player>)
    ensures Distinct(D.ActiveIndexes(players)) && D.Seats(D.ActiveIndexes(players), |players|)
  {
  }

  lemma DistinctCircle(active: seq<int>, position: nat, n: nat)
    requires Distinct(active) && D.Seats(active, n) && position < |active|
    ensures Distinct(D.Circle(active, position)) && D.Seats(D.Circle(active, position), n)
  {
    var circle := D.Circle(active, position);
    forall i, j | 0 <= i < j < |circle|
      ensures circle[i] != circle[j]
    {
    }
  }

  lemma DealtPile(players: seq<Player>, pile: seq<Card>, dt: D.DealType, order: Option<seq<int>>, dealer: int, cut: int)
    requires D.InitialDeal(players, pile, dt, order, dealer, cut).Success?
    ensures var n := 12 * |D.ActiveIndexes(players)|;
            0 <= cut && cut + n <= |pile| &&
            D.InitialDeal(players, pile, dt, order, dealer, cut).value.pile == pile[cut + n..] + pile[..cut]
  {
    hide D.Deal, D.Targets, D.ActiveIndexes;
    var n := 12 * |D.ActiveIndexes(players)|;
    assert pile[cut..][n..] == pile[cut + n..];
  }

  /** Dealt one at a time, the seats of the circle take turns at the cards below the cut; dealt in blocks, each
      seat of the order takes the next twelve. Nobody else gets a card, and the cards above the cut come last. */
  lemma DealServes(players: seq<Player>, pile: seq<Card>, dt: D.DealType, order: Option<seq<int>>, dealer: int,
                   cut: int,
                   i: int)
    requires D.InitialDeal(players, pile, dt, order, dealer, cut).Success? && 0 <= i < |players|
    ensures var d, cards := D.InitialDeal(players, pile, dt, order, dealer, cut).value, pile[cut..];
            var n := |D.ActiveIndexes(players)|;
            && |d.players| == |players| && d.players[i] == players[i].(hand := d.players[i].hand)
            && d.pile == pile[cut + 12 * n..] + pile[..cut]
            && match dt
               case RoundRobin =>
                 dealer in D.ActiveIndexes(players) &&
                 var k := PlaceIn(CircleFrom(players, dealer), i);
                 d.players[i].hand == players[i].hand + if k >= 0 then EveryNth(cards, n, k, 12) else []
               case InBlocks =>
                 order.Some? &&
                 var k := PlaceIn(order.value, i);
                 d.players[i].hand == players[i].hand + if 0 <= k < n then cards[12 * k..12 * (k + 1)] else []
               case UnknownDeal => false
  {
    hide D.Deal, PlaceIn, EveryNth, D.ActiveIndexes, D.Circle, D.ValidOrder;
    DealIff(players, pile, dt, order, dealer, cut);
    D.DealConserves(players, pile, dt, order, dealer, cut);
    DistinctActive(players);
    DealtPile(players, pile, dt, order, dealer, cut);
    var active, cards := D.ActiveIndexes(players), pile[cut..];
    match dt
    case RoundRobin =>
      DistinctCircle(active, D.PositionOf(active, dealer), |players|);
      RoundsServe(players, CircleFrom(players, dealer), 12, cards, i);
    case InBlocks =>
      OrderSeats(order.value, active, |players|);
      BlocksServe(players, order.value, cards, i);
      PlaceBelow(order.value, i);
    case UnknownDeal =>
  }

  lemma OrderSeats(order: seq<int>, active: seq<int>, n: nat)
    requires D.ValidOrder(order, active) && D.Seats(active, n)
    ensures D.Seats(order, n) && Distinct(order) && |order| == |active|
  {
  }

  // ---------------------------------------------------------------- the round begins

  /** Why a round begins: enough players, an active dealer, the player before them to choose, and a deal that
      leaves a card to open the discard pile. */
  lemma RoundBeginsIff(s: State, dealer: int, chooser: int, dt: D.DealType, order: Option<seq<int>>, cut: int)
    ensures var active, flags := D.ActiveIndexes(s.players), ActiveFlags(s.players);
            StartRound(s, dealer, chooser, dt, order, cut).error.None? <==>
              && |active| >= 2 && 0 <= dealer < |s.players| && !s.players[dealer].forfeited
              && IsPrevious(flags, dealer, chooser) && 12 * |active| < |s.drawPile|
              && D.InitialDeal(s.players, s.drawPile, dt, order, dealer, cut).Success?
  {
    hide D.ActiveIndexes, D.InitialDeal, PreviousOf, Dealt;
    var flags := ActiveFlags(s.players);
    if 0 <= dealer < |s.players| && IsPrevious(flags, dealer, chooser) {
      PreviousUnique(flags, dealer, chooser, PreviousOf(flags, dealer));
    }
    OnlyKinds(s.players, s.drawPile, dt, order, dealer, cut);
  }

  lemma OnlyKinds(players: seq<Player>, pile: seq<Card>, dt: D.DealType, order: Option<seq<int>>, dealer: int, cut: int)
    ensures D.InitialDeal(players, pile, dt, order, dealer, cut).Success? ==> (dt == D.InBlocks ==> order.Some?)
  {
    DealIff(players, pile, dt, order, dealer, cut);
  }

  /** A hand that wins as dealt. */
  ghost predicate WinsAsDealt(d: D.Dealt, i: int) {
    0 <= i < |d.players| && !d.players[i].forfeited && (OneSuit(d.players[i].hand) || SixPairs(d.players[i].hand))
  }

  lemma {:induction false} FirstSpecialIs(players: seq<Player>)
    ensures var k := FirstSpecial(players);
            forall i :: 0 <= i < k ==> players[i].forfeited || !(OneSuit(players[i].hand) || SixPairs(players[i].hand))
  {
    hide OneSuit, SixPairs;
    if players != [] {
      FirstSpecialIs(players[..|players| - 1]);
    }
  }

  /** After the deal each active player has played one more round, the next card opens the discard pile, and the
      player after the dealer is to move, unless a hand wins as dealt: then the round is over, and the first seat
      with such a hand has won it. */
  lemma RoundBegins(s: State, dealer: int, chooser: int, dt: D.DealType, order: Option<seq<int>>, cut: int)
    requires StartRound(s, dealer, chooser, dt, order, cut).error.None?
    requires D.InitialDeal(s.players, s.drawPile, dt, order, dealer, cut).Success?
    ensures var t, d := StartRound(s, dealer, chooser, dt, order, cut).state,
                        D.InitialDeal(s.players, s.drawPile, dt, order, dealer, cut).value;
            && |t.players| == |s.players| == |d.players| && d.pile != [] && t.dealerIndex == dealer
            && t.drawPile == d.pile[1..] && t.discardPile == [d.pile[0]] + s.discardPile && t.table == s.table
            && (forall i :: 0 <= i < |s.players| ==>
                  t.players[i].hand == d.players[i].hand && t.players[i].forfeited == s.players[i].forfeited &&
                  t.players[i].statistics.roundsPlayed ==
                    s.players[i].statistics.roundsPlayed + if s.players[i].forfeited then 0 else 1)
            && (t.phase == InProgress <==> forall i :: !WinsAsDealt(d, i))
            && if t.phase == InProgress then
                 IsNext(ActiveFlags(s.players), dealer, t.turn.playerIndex) &&
                 t.turn == s.turn.(playerIndex := t.turn.playerIndex)
               else
                 WinsAsDealt(d, t.roundWinnerIndex) && forall i :: 0 <= i < t.roundWinnerIndex ==> !WinsAsDealt(d, i)
  {
    hide D.ActiveIndexes, D.InitialDeal, PreviousOf, FinishRound, OneSuit, SixPairs, FirstSpecial, NextOf;
    D.DealConserves(s.players, s.drawPile, dt, order, dealer, cut);
    var d := D.InitialDeal(s.players, s.drawPile, dt, order, dealer, cut).value;
    var counted := CountRound(d.players);
    FirstSpecialIs(counted);
    var r := s.(players := counted, dealerIndex := dealer, drawPile := d.pile[1..],
                discardPile := [d.pile[0]] + s.discardPile);
    var w := FirstSpecial(counted);
    if w < |counted| {
      WonAtOnce(r, w);
      assert WinsAsDealt(d, w);
    } else {
      assert ActiveFlags(counted) == ActiveFlags(s.players);
    }
  }

  lemma WonAtOnce(r: State, w: int)
    requires 0 <= w < |r.players|
    ensures var t := FinishRound(r, w);
            && |t.players| == |r.players| && t.phase != InProgress && t.roundWinnerIndex == w
            && t.dealerIndex == r.dealerIndex && t.drawPile == r.drawPile && t.discardPile == r.discardPile
            && t.table == r.table
            && forall i :: 0 <= i < |r.players| ==>
                 t.players[i].hand == r.players[i].hand && t.players[i].forfeited == r.players[i].forfeited &&
                 t.players[i].statistics.roundsPlayed == r.players[i].statistics.roundsPlayed
  {
    hide HandPoints, OneSuit, SixPairs, Inflicted, HighestRemaining, OthersOverLimit;
    RoundEndsGameIff(r, w);
  }

  /** Hands, table and discards are empty, nobody has opened, and the deck is in the middle. */
  predicate ClearedFor(s: State, c: State, deck: seq<Card>) {
    && |c.players| == |s.players| && c.table == [] && c.discardPile == [] && c.drawPile == deck
    && c.round == s.round && c.turn == Turn(1, 0, false, false, None)
    && forall i :: 0 <= i < |s.players| ==>
         var p, q := s.players[i], c.players[i];
         q.hand == [] && !q.hasOpened && q.totalPoints == p.totalPoints && q.statistics == p.statistics &&
         q.forfeited == p.forfeited && q.id == p.id && q.pointsGained == 0
  }

  /** A game starts from the lobby in a known mode, with a round on the cleared table; if the round cannot begin, the
      game keeps the mode and the cleared table. */
  lemma GameBegins(s: State, dealer: int, chooser: int, dt: D.DealType, order: Option<seq<int>>, cut: int, mode: Mode)
    returns (cleared: State)
    ensures ClearedFor(s, cleared, s.drawPile) && cleared.mode == mode && cleared.phase == Lobby
    ensures StartGame(s, dealer, chooser, dt, order, cut, mode) ==
            if s.phase != Lobby then Outcome(s, Some(GameInProgress))
            else if mode != Full && mode != Quick then Outcome(s, Some(InvalidGameMode))
            else StartRound(cleared, dealer, chooser, dt, order, cut)
  {
    hide StartRound;
    cleared := Reset(s, s.drawPile).(mode := mode);
  }

  /** A new round: the deal passes to the next active player, hands, table and discards are empty, nobody has
      opened, and the round number goes up if the deal succeeds. */
  lemma NextRoundBegins(s: State, dt: D.DealType, order: Option<seq<int>>, cut: int, deck: seq<Card>)
    returns (dealer: int, chooser: int, cleared: State)
    requires s.phase == RoundOver && 0 <= s.dealerIndex < |s.players|
    ensures var flags := ActiveFlags(s.players);
            IsNext(flags, s.dealerIndex, dealer) && (0 <= dealer < |s.players| ==> IsPrevious(flags, dealer, chooser))
    ensures ClearedFor(s, cleared, deck) && cleared.mode == s.mode
    ensures var r, t := StartRound(cleared, dealer, chooser, dt, order, cut), StartNextRound(s, dt, order, cut, deck);
            t.error == r.error && t.state == if r.error.Some? then r.state else r.state.(round := s.round + 1)
  {
    hide StartRound, NextOf, PreviousOf;
    var flags := ActiveFlags(s.players);
    dealer := NextOf(flags, s.dealerIndex);
    chooser := PreviousOf(flags, dealer);
    cleared := Reset(s, deck);
    assert ActiveFlags(cleared.players) == flags;
    RoundStays(cleared, dealer, chooser, dt, order, cut);
  }

  lemma RoundStays(s: State, dealer: int, chooser: int, dt: D.DealType, order: Option<seq<int>>, cut: int)
    ensures StartRound(s, dealer, chooser, dt, order, cut).state.round == s.round
  {
    hide D.InitialDeal, ScoredPlayers, Adjusted, OthersOverLimit, FirstSpecial, NextOf, PreviousOf, CountRound;
  }
}
