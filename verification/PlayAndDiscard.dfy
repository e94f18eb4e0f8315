/** Playing and discarding in one request, on a restored copy (PlayTableAndDiscardMatching in state.go), against
    playing and then discarding: the same, but for the layout of runs the restore lays out again. */
module PlayAndDiscard {
  import opened Cards
  import opened RunSpec
  import opened RunLayout
  import opened Compositions
  import opened CompositionObjects
  import opened LayoutStability
  import opened TablePlay
  import opened PlayedCards
  import opened Rotation
  import opened SpecialHands
  import opened RoundScoring
  import opened RelaidTables
  import opened GameModel
  import opened GameInvariants
  import opened Persistence
  import opened GameRuns
  import opened BuiltTables
  import opened Obligations
  import D = Dealing

  // ---------------------------------------------------------------- a complete run has one layout

  lemma WholeSuit(cards: seq<Card>) returns (suit: Suit)
    requires IsRun(cards) && AllNatural(cards) && |cards| == 14
    ensures SuitOf(multiset(cards)) == suit && JokerCount(cards) != 14 && multiset(cards)[Natural(ACE, suit)] == 2
  {
    NoJokers(cards);
    RunIffAdmitted(cards);
    var start: int;
    suit, start :| Admits(multiset(cards), suit, start, 14);
    SuitOfRun(cards, suit, start);
    OneSuited(cards, suit, start);
    WholeSuitIff(cards, suit);
  }

  lemma OnlyCandidate(m: multiset<Card>, suit: Suit)
    requires m[Natural(ACE, suit)] == 2
    ensures Candidates(m, suit, 14) ==
            if ReadingFits(m, suit, false, 1, 14) then [CandidateAt(m, suit, 1, false, 14)] else []
  {
    hide CandidatesUpTo, CandidateAt, Admits;
    HighCandidates(m, suit, 1, 14);
    LowCandidates(m, suit, 1, 14);
  }

  lemma WholeSuitLayout(cards: seq<Card>) returns (suit: Suit)
    requires IsRun(cards) && AllNatural(cards) && |cards| == 14
    ensures SuitOf(multiset(cards)) == suit
    ensures Normalized(cards) == Layout(multiset(cards), suit, false, 1, 14)
  {
    hide Candidates, ReadingFits, SuitOf, Layout, IsRun, AllNatural, RepresentationsOf;
    suit := WholeSuit(cards);
    OnlyCandidate(multiset(cards), suit);
    RunHasCandidates(cards);
    var list, c := Candidates(multiset(cards), suit, 14), CandidateAt(multiset(cards), suit, 1, false, 14);
    assert list == [c] && list[..0] == [];
    assert ScanList(cards, list) == Consider(cards, None, c);
    assert BestRunOrder(cards).Some? && BestRunOrder(cards).value.ordered == c.ordered;
  }

  lemma NoJokers(cards: seq<Card>)
    requires AllNatural(cards) && cards != []
    ensures JokerCount(cards) != |cards|
  {
    if JokerCount(cards) == |cards| {
      AllJokers(cards);
      assert false;
    }
  }

  lemma OneSuited(cards: seq<Card>, suit: Suit, start: int)
    requires AllNatural(cards) && Admits(multiset(cards), suit, start, |cards|)
    ensures SameSuit(cards, suit)
  {
    assert forall i :: 0 <= i < |cards| ==> cards[i] in multiset(cards);
  }

  /** Complete compositions are the same in a relaid table. */
  lemma CompleteIsSame(c: Comp, d: Comp)
    requires Built(c) && Built(d) && Relaid(c, d)
    ensures Complete(d.variant, d.cards) <==> Complete(c.variant, c.cards)
    ensures Complete(c.variant, c.cards) ==> d == c
  {
    if c.variant == Run {
      BuiltRun(c);
      BuiltRun(d);
      SameRun(c.cards, d.cards);
      NaturalsByMultiset(c.cards, d.cards);
      if Complete(Run, c.cards) {
        var x :| MakeComp(x, Run, false) == Some(c);
        var y :| MakeComp(y, Run, false) == Some(d);
        NormalizedKeepsCards(x);
        NormalizedKeepsCards(y);
        SameMultisetSameLength(x, c.cards);
        SameMultisetSameLength(y, c.cards);
        NaturalsByMultiset(x, c.cards);
        NaturalsByMultiset(y, c.cards);
        hide Normalized, AssignedJokers, Built, IsRun;
        var u := WholeSuitLayout(x);
        var v := WholeSuitLayout(y);
      }
    }
  }

  lemma NaturalsByMultiset(a: seq<Card>, b: seq<Card>)
    requires multiset(a) == multiset(b)
    ensures AllNatural(a) <==> AllNatural(b)
  {
    assert forall i :: 0 <= i < |a| ==> a[i] in multiset(b);
    assert forall i :: 0 <= i < |b| ==> b[i] in multiset(a);
  }

  lemma {:induction false} CleanupRelaid(table: seq<Comp>, other: seq<Comp>, pile: seq<Card>)
    requires AllBuilt(table) && AllBuilt(other) && AllRelaid(table, other)
    ensures var r, q := RemoveCompleted(table, pile), RemoveCompleted(other, pile);
            q.discardPile == r.discardPile && AllRelaid(r.table, q.table)
  {
    hide Built, Complete, Relaid;
    if table != [] {
      var k := |table| - 1;
      CleanupRelaid(table[..k], other[..k], pile);
      CompleteIsSame(table[k], other[k]);
    }
  }

  // ---------------------------------------------------------------- the two requests

  /** The same game but for the layout of runs. */
  ghost predicate SameButLayout(s: State, t: State) {
    t == s.(table := t.table) && AllRelaid(s.table, t.table)
  }

  lemma DiscardRelaid(s: State, t: State, index: int, expected: Option<Card>)
    requires Seated(s) && SameButLayout(s, t.(turn := s.turn)) && AllBuilt(s.table) && AllBuilt(t.table)
    requires t.turn == s.turn.(discardDrawCard := t.turn.discardDrawCard) && Discard(s, index, expected).error.None?
    ensures var d, e := Discard(s, index, expected), Discard(t, index, expected);
            e.error.None? && SameButLayout(d.state, e.state)
  {
    hide AllBuilt, AllRelaid, RemoveCompleted, MatchIndex, WinsRound, ScoredPlayers, Adjusted, OthersOverLimit,
         NextOf, ActiveFlags,
         DistinctIds;
    CleanupRelaid(s.table, t.table, s.discardPile);
  }

  lemma PlayRelaid(s: State, comps: seq<Comp>, additions: seq<Addition>, reclaims: seq<JokerReclaim>)
    requires Inv(s) && AllBuilt(s.table) && AllOk(s.table) && PlayTable(s, comps, additions, reclaims).error.None?
    requires s.turn.mustUseDiscardDraw ==> s.turn.discardDrawCard.Some?
    ensures var p, q := PlayTable(s, comps, additions, reclaims), PlayTable(Restored(s), comps, additions, reclaims);
            q.error.None? && SameButLayout(p.state, q.state.(turn := p.state.turn)) &&
            q.state.turn == p.state.turn.(discardDrawCard := q.state.turn.discardDrawCard)
  {
    hide Inv, AllBuilt, AllOk, ApplyTablePlay, UsesCard, RemadeAll, AllRelaid, AllQuietlyRelaid, Opened;
    AllRemadeQuietly(s.table);
    var p := s.players[s.turn.playerIndex];
    PlayCarries(TableState(p.hand, s.table, p.hasOpened), RemadeAll(s.table), comps, additions, reclaims);
  }

  /** Whenever playing and then discarding succeeds, so does the one request, with the same result but for the
      layout of runs. */
  lemma OneRequestFollows(s: State, comps: seq<Comp>, additions: seq<Addition>, reclaims: seq<JokerReclaim>,
                          index: int, expected: Option<Card>)
    requires Inv(s) && Restorable(s) && AllBuilt(comps)
    requires PlayTable(s, comps, additions, reclaims).error.None?
    requires Discard(PlayTable(s, comps, additions, reclaims).state, index, expected).error.None?
    ensures AllOk(s.table)
    ensures var d := Discard(PlayTable(s, comps, additions, reclaims).state, index, expected);
            var r := PlayThenDiscard(s, comps, additions, reclaims, index, expected);
            r.error.None? && SameButLayout(d.state, r.state)
  {
    hide Inv, AllBuilt, AllOk, PlayTable, Discard, Restored, Keeps;
    AllBuiltOk(s.table);
    AllBuiltOk(comps);
    PlayRelaid(s, comps, additions, reclaims);
    PlayRestorable(s, comps, additions, reclaims);
    RestoredRestorable(s);
    PlayRestorable(Restored(s), comps, additions, reclaims);
    PlayTableKeeps(s, comps, additions, reclaims);
    KeptSeated(s, PlayTable(s, comps, additions, reclaims).state);
    DiscardRelaid(PlayTable(s, comps, additions, reclaims).state,
                  PlayTable(Restored(s), comps, additions, reclaims).state, index, expected);
  }

  lemma KeptSeated(s: State, t: State)
    requires Keeps(s, t)
    ensures Seated(t)
  {
  }

  /** If every run keeps its layout, one request is playing and then discarding, or nothing at all. */
  lemma PlayThenDiscardIsBoth(s: State, comps: seq<Comp>, additions: seq<Addition>, reclaims: seq<JokerReclaim>,
                              index: int, expected: Option<Card>)
    requires Inv(s) && AllBuilt(s.table) && AllOk(comps) && forall i :: 0 <= i < |s.table| ==> KeepsLayout(s.table[i])
    ensures AllOk(s.table)
    ensures var p := PlayTable(s, comps, additions, reclaims);
            var d := Discard(p.state, index, expected);
            PlayThenDiscard(s, comps, additions, reclaims, index, expected) ==
            if p.error.Some? then Outcome(s, p.error) else if d.error.Some? then Outcome(s, d.error) else d
  {
    hide AllOk, AllBuilt, KeepsLayout, ApplyTablePlay, UsesCard, Conserved, InPhase, MatchIndex, RemoveCompleted,
         WinsRound,
         ScoredPlayers, Adjusted, OthersOverLimit, NextOf, ActiveFlags, RemadeAll;
    AllBuiltOk(s.table);
    SeatedInv(s);
    RestoredSameIff(s);
  }
}
