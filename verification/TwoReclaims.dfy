/** What the search does not see: it makes at most one reclaim in advance, so a play that needs the jokers of two
    is missed, even by a player who has opened. */
module TwoReclaims {
  import opened Cards
  import opened RunSpec
  import opened RunFitting
  import opened Compositions
  import opened JokerMeaning
  import opened TablePlay
  import opened PlayedCards
  import opened SearchPlays
  import opened DiscardSearch
  import opened DiscardComplete
  import opened PlayOutcomes

  const KING_OF_CLUBS: Card := Natural(KING, Clubs)
  const HELD: seq<Card> := [Natural(7, Spades), Natural(9, Spades), Natural(TWO, Diamonds)]

  /** A set on the table that lacks its spade. */
  function ThreeAndJoker(rank: Rank): seq<Card> {
    [Natural(rank, Diamonds), Natural(rank, Clubs), Natural(rank, Hearts), Joker]
  }

  function SpadeMissing(rank: Rank): Comp {
    Comp(Set, ThreeAndJoker(rank), map[3 := [Natural(rank, Spades)]])
  }

  function Laid(): seq<Comp> {
    [SpadeMissing(7), SpadeMissing(9)]
  }

  lemma LacksSpade(rank: Rank)
    ensures CompOk(SpadeMissing(rank)) && CanReclaimJoker(SpadeMissing(rank), 3, Natural(rank, Spades))
  {
    var cards := ThreeAndJoker(rank);
    SetIffShape(cards);
    assert UsedSuits(cards) == {Diamonds, Clubs, Hearts} by {
      assert cards[0] in cards && cards[1] in cards && cards[2] in cards;
    }
    var first := FirstNatural(cards);
    assert first.Some? by {
      assert cards[0] in cards;
    }
    assert SetOptions(cards) == [Natural(rank, Spades)];
  }

  lemma TableIsOk()
    ensures AllOk(Laid())
  {
    LacksSpade(7);
    LacksSpade(9);
  }

  // ---------------------------------------------------------------- two reclaims would do

  const BOTH: seq<JokerReclaim> := [JokerReclaim(0, 3, Natural(7, Spades)), JokerReclaim(1, 3, Natural(9, Spades))]

  function Kings(): seq<Card> {
    [KING_OF_CLUBS, Joker, Joker]
  }

  lemma FirstReclaimed()
    ensures var r := ReclaimAll(Laid(), BOTH[..1]);
            r.Some? && |r.value.table| == 2 && r.value.table[1] == Laid()[1] && r.value.deferred == []
  {
    hide CompOk, MakeComp;
    LacksSpade(7);
    ReclaimSucceeds(Laid()[0], 3, Natural(7, Spades));
    assert BOTH[..1] == [BOTH[0]];
    OneReclaim(Laid(), BOTH[0]);
  }

  lemma BothReclaimed()
    ensures var r := ReclaimAll(Laid(), BOTH); r.Some? && r.value.deferred == []
  {
    hide CompOk, MakeComp;
    FirstReclaimed();
    LacksSpade(9);
    ReclaimSucceeds(Laid()[1], 3, Natural(9, Spades));
  }

  lemma BothGoThrough()
    ensures TableMoves(Laid(), [], BOTH).Some?
  {
    hide ReclaimAll;
    BothReclaimed();
    var r := ReclaimAll(Laid(), BOTH).value;
    assert AddAll(Adding(r.table, [], [], 0), []) == Some(Adding(r.table, [], [], 0));
  }

  lemma NamedThere(c: Comp)
    requires multiset(c.cards) == multiset(Kings())
    ensures Named([c], [], BOTH) == multiset(Kings()) + multiset{Natural(7, Spades), Natural(9, Spades)}
  {
    assert [c][..0] == [] && BOTH[..1][..0] == [];
    assert TableCards([c]) == multiset(c.cards);
    assert ReplacementCards(BOTH[..1]) == multiset{Natural(7, Spades)};
  }

  /** With both jokers the discard makes a set, and the executor would carry it out. */
  lemma TwoReclaimsDo() returns (comps: seq<Comp>)
    ensures AllOk(comps) && UsesCard(comps, [], BOTH, KING_OF_CLUBS)
    ensures ApplyTablePlay(TableState(HELD + [KING_OF_CLUBS], Laid(), true), comps, [], BOTH).Success?
  {
    hide TableMoves, CompOk, UsesCard, ApplyTablePlay, Named;
    SetIffShape(Kings());
    MakeCompOk(Kings(), Set, false);
    var c := MakeComp(Kings(), Set, false).value;
    comps := [c];
    var s := TableState(HELD + [KING_OF_CLUBS], Laid(), true);
    TableIsOk();
    BothGoThrough();
    NamedThere(c);
    UsesCardIff(comps, [], BOTH, KING_OF_CLUBS);
    PlayAnswer(s, comps, [], BOTH);
    OkHasPoints(c);
    assert Layable(c);
    EnoughForBoth(s);
  }

  lemma EnoughForBoth(s: TableState)
    requires s.hand == HELD + [KING_OF_CLUBS]
    ensures var named := multiset(Kings()) + multiset{Natural(7, Spades), Natural(9, Spades)};
            named <= InHand(s, BOTH) && named != InHand(s, BOTH)
  {
    assert Natural(TWO, Diamonds) in InHand(s, BOTH);
  }

  // ---------------------------------------------------------------- one does not

  lemma FewOthers(m: multiset<Card>)
    requires m <= multiset(HELD) + multiset{KING_OF_CLUBS} + Jokers(1)
    requires m[HELD[0]] == 0 && m[HELD[1]] == 0 && m[HELD[2]] == 0
    ensures |m| <= 2
  {
    var few := multiset{KING_OF_CLUBS, Joker};
    forall c: Card
      ensures m[c] <= few[c]
    {
      assert m[c] <= (multiset(HELD) + multiset{KING_OF_CLUBS} + Jokers(1))[c];
    }
    assert |few - m| == |few| - |m|;
  }

  lemma SomeoneElse(m: multiset<Card>) returns (x: Card)
    requires m <= multiset(HELD) + multiset{KING_OF_CLUBS} + Jokers(1) && |m| >= 3
    ensures x in m && x.Natural? && x.suit != Clubs && x.rank != KING
  {
    if m[HELD[0]] == 0 && m[HELD[1]] == 0 && m[HELD[2]] == 0 {
      FewOthers(m);
    }
    x := if m[HELD[0]] > 0 then HELD[0] else if m[HELD[1]] > 0 then HELD[1] else HELD[2];
  }

  /** No set and no run holds the king and a card of another rank and suit. */
  lemma NotTogether(c: Comp, x: Card)
    requires CompOk(c) && KING_OF_CLUBS in c.cards && x in c.cards
    ensures !x.Natural? || x.suit == Clubs || x.rank == KING
  {
    if c.variant == Set {
      SetIffShape(c.cards);
      SetRankOf(c.cards);
    } else {
      var a, suit, start :| ArrangesAt(c.cards, a, suit, start);
      assert x in multiset(a) && KING_OF_CLUBS in multiset(a);
    }
  }

  /** The cards in hand make no composition with the king, even with one joker. */
  lemma KingAlone(c: Comp)
    requires CompOk(c) && multiset(c.cards) <= multiset(HELD) + multiset{KING_OF_CLUBS} + Jokers(1)
    ensures KING_OF_CLUBS !in c.cards
  {
    ThreeCards(c);
    var x := SomeoneElse(multiset(c.cards));
    if KING_OF_CLUBS in c.cards {
      NotTogether(c, x);
      assert false;
    }
  }

  /** Nor does the king fit what lies on the table, whatever joker is replaced. */
  lemma KingDoesNotFit(additions: seq<Addition>, reclaims: seq<JokerReclaim>, x: nat)
    requires TableMoves(Laid(), additions, reclaims).Some? && x < 2
    ensures KING_OF_CLUBS !in AddedTo(additions, x)
  {
    hide TableMoves, CompOk, AddedTo, ReplacedOn;
    TableIsOk();
    EachCompositionGains(Laid(), additions, reclaims, x);
    var c, six := TableMoves(Laid(), additions, reclaims).value.table[x], Laid()[x].cards[0];
    var before := multiset(Laid()[x].cards);
    assert six in before && six != Joker;
    assert six in before + AddedTo(additions, x) + ReplacedOn(reclaims, x);
    assert six in multiset(c.cards);
    if KING_OF_CLUBS in AddedTo(additions, x) {
      assert KING_OF_CLUBS in before + AddedTo(additions, x) + ReplacedOn(reclaims, x);
      assert KING_OF_CLUBS in multiset(c.cards);
      NotTogether(c, six);
      assert false;
    }
  }

  /** The king replaces no joker there. */
  lemma KingReclaimsNothing(reclaims: seq<JokerReclaim>)
    requires OneAtOnce(Laid(), reclaims)
    ensures reclaims != [] ==> reclaims[0].replacement != KING_OF_CLUBS
  {
  }

  lemma NotUsed(comps: seq<Comp>, additions: seq<Addition>, reclaims: seq<JokerReclaim>)
    ensures !Uses(HELD, KING_OF_CLUBS, Laid(), comps, additions, reclaims)
  {
    hide CompOk, TableMoves, Named, TableCards, AdditionCards, ReplacementCards, AddedTo, ApplyTablePlay, UsesCard;
    TableIsOk();
    if Uses(HELD, KING_OF_CLUBS, Laid(), comps, additions, reclaims) {
      UseFacts(HELD, KING_OF_CLUBS, Laid(), comps, additions, reclaims);
      KingReclaimsNothing(reclaims);
      NamedParts(comps, additions, reclaims, KING_OF_CLUBS);
      if KING_OF_CLUBS in TableCards(comps) {
        InTableCards(comps, KING_OF_CLUBS);
        var i :| 0 <= i < |comps| && KING_OF_CLUBS in comps[i].cards;
        TableCardsUpdate(comps, i, comps[i]);
        PartsOfNamed(comps, additions, reclaims, multiset(comps[i].cards));
        AtMostOneJoker(multiset(comps[i].cards), Named(comps, additions, reclaims), |reclaims|);
        KingAlone(comps[i]);
      } else {
        var x := SomewhereAdded(additions, KING_OF_CLUBS);
        var i :| 0 <= i < |additions| && additions[i].compositionIndex == x;
        AddedInRange(Laid(), additions, reclaims, i);
        KingDoesNotFit(additions, reclaims, x);
      }
    }
  }

  lemma AtMostOneJoker(part: multiset<Card>, named: multiset<Card>, n: nat)
    requires part <= named && named <= multiset(HELD) + multiset{KING_OF_CLUBS} + Jokers(n) && n <= 1
    ensures part <= multiset(HELD) + multiset{KING_OF_CLUBS} + Jokers(1)
  {
    assert Jokers(n) <= Jokers(1);
  }

  /** The search refuses the king although a play with two reclaims would use it (TwoReclaimsDo). */
  method KingIsRefused() returns (ok: bool)
    ensures !ok && !SomePlayUses(HELD, KING_OF_CLUBS, Laid())
  {
    hide AllOk, Accepted, BaseOf, NothingUses, OneAtOnce, Uses;
    TableIsOk();
    ghost var s, q;
    ok, s, q := CanTakeDiscardNow(HELD, [KING_OF_CLUBS], Laid(), true);
    TakeableIff(HELD, KING_OF_CLUBS, Laid(), ok, s, q);
    forall comps, additions, reclaims
      ensures !Uses(HELD, KING_OF_CLUBS, Laid(), comps, additions, reclaims)
    {
      NotUsed(comps, additions, reclaims);
    }
  }
}
