/** Players with their hands and table compositions as the objects the game points to, and the loops of
    clone.go that copy them. */
module GameObjects {
  import opened Cards
  import opened Compositions
  import opened CompositionObjects
  import opened Piles
  import opened RoundScoring

  // ---------------------------------------------------------------- players

  class SeatedPlayer {
    var id: string
    var hand: Hand
    var totalPoints: int
    var pointsGained: int
    var unadjustedTotalPoints: int
    var hasOpened: bool
    var forfeited: bool
    var statistics: Statistics

    function Value(): Player
      reads this, hand
    {
      Player(id, hand.cards, totalPoints, pointsGained, unadjustedTotalPoints, hasOpened, forfeited, statistics)
    }

    constructor Of(p: Player)
      ensures Value() == p && fresh(hand)
    {
      id, totalPoints, pointsGained, unadjustedTotalPoints :=
        p.id, p.totalPoints, p.pointsGained, p.unadjustedTotalPoints;
      hasOpened, forfeited, statistics := p.hasOpened, p.forfeited, p.statistics;
      hand := new Hand(p.hand);
    }

    /** The copy has a hand of its own. */
    method Clone() returns (copy: SeatedPlayer)
      ensures fresh(copy) && fresh(copy.hand) && copy.Value() == Value()
    {
      copy := new SeatedPlayer.Of(Value().(hand := []));
      copy.hand := new Hand(hand.cards);
    }

    /** Write every field, and the cards of the hand. */
    method Become(p: Player)
      modifies this, hand
      ensures hand == old(hand) && Value() == p
    {
      id, totalPoints, pointsGained, unadjustedTotalPoints :=
        p.id, p.totalPoints, p.pointsGained, p.unadjustedTotalPoints;
      hasOpened, forfeited, statistics := p.hasOpened, p.forfeited, p.statistics;
      hand.cards := p.hand;
    }
  }

  /** Different players with different hands, all of them among `people`. */
  ghost predicate SeatedIn(players: seq<SeatedPlayer>, people: set<object>)
    reads people
  {
    && (forall i :: 0 <= i < |players| ==> players[i] in people && players[i].hand in people)
    && forall i, j :: 0 <= i < j < |players| ==> players[i] != players[j] && players[i].hand != players[j].hand
  }

  function PlayerValues(players: seq<SeatedPlayer>, ghost people: set<object>): (r: seq<Player>)
    requires SeatedIn(players, people)
    reads people
    ensures |r| == |players| && forall i :: 0 <= i < |r| ==> r[i] == players[i].Value()
  {
    if players == [] then []
    else
      PlayerValues(players[..|players| - 1], people) + [players[|players| - 1].Value()]
  }

  /** The loop of GameState.Clone over the players. */
  method ClonePlayers(players: seq<SeatedPlayer>, ghost people: set<object>)
    returns (copies: seq<SeatedPlayer>, ghost copied: set<object>)
    requires SeatedIn(players, people)
    ensures fresh(copied) && SeatedIn(copies, copied) && PlayerValues(copies, copied) == PlayerValues(players, people)
  {
    hide PlayerValues;
    copies, copied := [], {};
    for i := 0 to |players|
      invariant |copies| == i && fresh(copied) && SeatedIn(copies, copied)
      invariant forall k :: 0 <= k < i ==> copies[k].Value() == players[k].Value()
    {
      var copy := players[i].Clone();
      copies, copied := copies + [copy], copied + {copy, copy.hand};
    }
  }

  /** New players with given values. */
  method SeatPlayers(values: seq<Player>) returns (players: seq<SeatedPlayer>, ghost people: set<object>)
    ensures fresh(people) && SeatedIn(players, people) && PlayerValues(players, people) == values
  {
    hide PlayerValues;
    players, people := [], {};
    for i := 0 to |values|
      invariant |players| == i && fresh(people) && SeatedIn(players, people)
      invariant forall k :: 0 <= k < i ==> players[k].Value() == values[k]
    {
      var player := new SeatedPlayer.Of(values[i]);
      players, people := players + [player], people + {player, player.hand};
    }
  }

  /** One player changes in place. */
  method StorePlayer(players: seq<SeatedPlayer>, i: int, p: Player, ghost people: set<object>)
    requires SeatedIn(players, people) && 0 <= i < |players|
    modifies people
    ensures SeatedIn(players, people)
    ensures PlayerValues(players, people) == old(PlayerValues(players, people))[i := p]
  {
    hide PlayerValues;
    players[i].Become(p);
  }

  /** One player gets a new, empty hand. */
  method NewHandFor(players: seq<SeatedPlayer>, i: int, ghost people: set<object>) returns (ghost more: set<object>)
    requires SeatedIn(players, people) && 0 <= i < |players|
    modifies people
    ensures more >= people && fresh(more - people) && SeatedIn(players, more)
    ensures PlayerValues(players, more) ==
            old(PlayerValues(players, people))[i := old(PlayerValues(players, people))[i].(hand := [])]
  {
    hide PlayerValues;
    var hand := new Hand([]);
    players[i].hand := hand;
    more := people + {hand};
  }

  // ---------------------------------------------------------------- the table

  /** Different compositions with different maps, all of them among `laid`. */
  ghost predicate LaidIn(comps: seq<Composition>, laid: set<object>)
    reads laid
  {
    && (forall i :: 0 <= i < |comps| ==> comps[i] in laid && comps[i].jokerRepresentations in laid)
    && forall i, j :: 0 <= i < j < |comps| ==>
         comps[i] != comps[j] && comps[i].jokerRepresentations != comps[j].jokerRepresentations
  }

  function CompValues(comps: seq<Composition>, ghost laid: set<object>): (r: seq<Comp>)
    requires LaidIn(comps, laid)
    reads laid
    ensures |r| == |comps| && forall i :: 0 <= i < |r| ==> r[i] == comps[i].Value()
  {
    if comps == [] then []
    else
      CompValues(comps[..|comps| - 1], laid) + [comps[|comps| - 1].Value()]
  }

  /** The loop of GameState.Clone over the compositions. */
  method CloneCompositions(comps: seq<Composition>, ghost laid: set<object>)
    returns (copies: seq<Composition>, ghost copied: set<object>)
    requires LaidIn(comps, laid)
    ensures fresh(copied) && LaidIn(copies, copied) && CompValues(copies, copied) == CompValues(comps, laid)
  {
    hide CompValues;
    copies, copied := [], {};
    for i := 0 to |comps|
      invariant |copies| == i && fresh(copied) && LaidIn(copies, copied)
      invariant forall k :: 0 <= k < i ==> copies[k].Value() == comps[k].Value()
    {
      var copy := comps[i].Clone();
      copies, copied := copies + [copy], copied + {copy, copy.jokerRepresentations};
    }
  }

  /** The table after a play: a composition that is as before keeps its object, others are new. */
  method LayOut(comps: seq<Composition>, values: seq<Comp>, ghost laid: set<object>)
    returns (next: seq<Composition>, ghost more: set<object>)
    requires LaidIn(comps, laid)
    ensures more >= laid && fresh(more - laid) && LaidIn(next, more) && CompValues(next, more) == values
  {
    hide CompValues;
    next, more := [], laid;
    for i := 0 to |values|
      invariant |next| == i && more >= laid && fresh(more - laid) && LaidIn(next, more)
      invariant forall k :: 0 <= k < i ==> next[k].Value() == values[k]
      invariant forall k :: 0 <= k < i ==>
                  (fresh(next[k]) && fresh(next[k].jokerRepresentations)) || (k < |comps| && next[k] == comps[k])
    {
      if i < |comps| && comps[i].Value() == values[i] {
        next := next + [comps[i]];
        continue;
      }
      var comp := new Composition.Of(values[i]);
      next, more := next + [comp], more + {comp, comp.jokerRepresentations};
    }
  }

  lemma NothingLaidIn(laid: set<object>)
    ensures LaidIn([], laid) && CompValues([], laid) == []
  {
  }

  /** One more of the compositions, after some of those before it. */
  lemma OneMoreLaid(comps: seq<Composition>, laid: set<object>, some: seq<Composition>, i: nat)
    requires LaidIn(comps, laid) && LaidIn(some, laid) && i < |comps|
    requires forall c :: c in some ==> c in comps[..i]
    ensures LaidIn(some + [comps[i]], laid)
    ensures CompValues(some + [comps[i]], laid) == CompValues(some, laid) + [comps[i].Value()]
  {
    hide CompValues;
    forall k | 0 <= k < |some|
      ensures some[k] != comps[i] && some[k].jokerRepresentations != comps[i].jokerRepresentations
    {
      assert some[k] in comps[..i];
    }
  }
}
