/** What a table play takes from the hand, and whether it takes a given card (tablePlayUsesCard). */
module PlayedCards {
  import opened Cards
  import opened Compositions
  import opened TablePlay

  ghost function AdditionCards(additions: seq<Addition>): multiset<Card> {
    if additions == [] then multiset{}
    else AdditionCards(additions[..|additions| - 1]) + multiset(additions[|additions| - 1].cards)
  }

  ghost function ReplacementCards(reclaims: seq<JokerReclaim>): multiset<Card> {
    if reclaims == [] then multiset{}
    else ReplacementCards(reclaims[..|reclaims| - 1]) + multiset{reclaims[|reclaims| - 1].replacement}
  }

  ghost function WaitingCards(deferred: seq<Deferred>): multiset<Card> {
    if deferred == [] then multiset{}
    else WaitingCards(deferred[..|deferred| - 1]) + multiset{deferred[|deferred| - 1].reclaim.replacement}
  }

  /** Every card a play names: compositions, additions and replacements. */
  ghost function Named(comps: seq<Comp>, additions: seq<Addition>, reclaims: seq<JokerReclaim>): multiset<Card> {
    TableCards(comps) + AdditionCards(additions) + ReplacementCards(reclaims)
  }

  // ---------------------------------------------------------------- each phase plays what it names

  lemma PlusOne(a: multiset<Card>, played: seq<Card>, w: multiset<Card>, c: Card)
    requires multiset(played) + w == a
    ensures multiset(played + [c]) + w == a + multiset{c} && multiset(played) + (w + multiset{c}) == a + multiset{c}
  {
  }

  lemma {:induction false} ReclaimAllPlays(table: seq<Comp>, reclaims: seq<JokerReclaim>)
    ensures var r := ReclaimAll(table, reclaims);
            r.Some? ==> multiset(r.value.played) + WaitingCards(r.value.deferred) == ReplacementCards(reclaims)
  {
    hide ReclaimJoker;
    if reclaims != [] {
      var k := |reclaims| - 1;
      ReclaimAllPlays(table, reclaims[..k]);
      var s, r := ReclaimAll(table, reclaims[..k]), ReclaimAll(table, reclaims);
      if r.Some? {
        PlusOne(ReplacementCards(reclaims[..k]), s.value.played, WaitingCards(s.value.deferred),
                reclaims[k].replacement);
        if r.value.deferred != s.value.deferred {
          assert r.value.deferred[..|r.value.deferred| - 1] == s.value.deferred;
        }
      }
    }
  }

  lemma {:induction false} ShiftKeepsWaiting(ds: seq<Deferred>, compositionIndex: int, insertIndex: int, count: nat)
    ensures WaitingCards(ShiftAll(ds, compositionIndex, insertIndex, count)) == WaitingCards(ds)
  {
    if ds != [] {
      var k := |ds| - 1;
      ShiftKeepsWaiting(ds[..k], compositionIndex, insertIndex, count);
      var shifted := ShiftAll(ds, compositionIndex, insertIndex, count);
      assert shifted[..k] == ShiftAll(ds[..k], compositionIndex, insertIndex, count);
    }
  }

  lemma {:induction false} AddAllPlays(s: Adding, additions: seq<Addition>)
    ensures var r := AddAll(s, additions);
            r.Some? ==> multiset(r.value.played) == multiset(s.played) + AdditionCards(additions) &&
                        WaitingCards(r.value.deferred) == WaitingCards(s.deferred)
  {
    hide WithInsertedCards, CompPoints;
    if additions != [] {
      var k := |additions| - 1;
      AddAllPlays(s, additions[..k]);
      var r, a := AddAll(s, additions[..k]), additions[k];
      if AddAll(s, additions).Some? {
        var target := r.value.table[a.compositionIndex];
        var insertIndex := if a.insertIndex.Some? then a.insertIndex.value else |target.cards|;
        ShiftKeepsWaiting(r.value.deferred, a.compositionIndex, insertIndex, |a.cards|);
        assert multiset(r.value.played + a.cards) == multiset(r.value.played) + multiset(a.cards);
      }
    }
  }

  lemma {:induction false} FinishAllPlays(s: Finishing, deferred: seq<Deferred>)
    ensures var r := FinishAll(s, deferred);
            r.Some? ==> multiset(r.value.played) == multiset(s.played) + WaitingCards(deferred)
  {
    hide ReclaimJoker;
    if deferred != [] {
      var k := |deferred| - 1;
      FinishAllPlays(s, deferred[..k]);
      var r := FinishAll(s, deferred[..k]);
      if r.Some? {
        var c := deferred[k].reclaim.replacement;
        assert multiset(r.value.played + [c]) == multiset(r.value.played) + multiset{c};
      }
    }
  }

  lemma AddUp(pr: seq<Card>, pa: seq<Card>, pf: seq<Card>, a: multiset<Card>, w: multiset<Card>, r: multiset<Card>)
    requires multiset(pr) + w == r && multiset(pa) == a && multiset(pf) == w
    ensures multiset(pr + pa + pf) == a + r
  {
    calc {
      multiset(pr + pa + pf);
      multiset(pr) + multiset(pa) + multiset(pf);
      a + (multiset(pr) + w);
    }
  }

  lemma TableMovesPlays(table: seq<Comp>, additions: seq<Addition>, reclaims: seq<JokerReclaim>)
    ensures var m := TableMoves(table, additions, reclaims);
            m.Some? ==> multiset(m.value.played) == AdditionCards(additions) + ReplacementCards(reclaims)
  {
    hide ReclaimAll, AddAll, FinishAll;
    if TableMoves(table, additions, reclaims).Some? {
      var r := ReclaimAll(table, reclaims).value;
      ReclaimAllPlays(table, reclaims);
      var start := Adding(r.table, r.deferred, [], 0);
      AddAllPlays(start, additions);
      var a := AddAll(start, additions).value;
      var from := Finishing(a.table, r.reclaimed, []);
      FinishAllPlays(from, a.deferred);
      AddUp(r.played, a.played, FinishAll(from, a.deferred).value.played,
            AdditionCards(additions), WaitingCards(r.deferred), ReplacementCards(reclaims));
    }
  }

  /** The cards a successful play takes from the hand are exactly those it names. */
  lemma PlayTakesNamed(table: seq<Comp>, comps: seq<Comp>, additions: seq<Addition>, reclaims: seq<JokerReclaim>)
    requires AllOk(comps)
    ensures var t := OnTable(table, comps, additions, reclaims);
            t.Some? ==> multiset(t.value.played) == Named(comps, additions, reclaims)
  {
    hide LayComps, TableMoves;
    if OnTable(table, comps, additions, reclaims).Some? {
      var l, m := LayComps(comps).value, TableMoves(table, additions, reclaims).value;
      LaidKeepsCards(comps);
      LayCompsKeeps(comps);
      TableMovesPlays(table, additions, reclaims);
      assert multiset(l.played + m.played) == multiset(l.played) + multiset(m.played);
      assert TableCards(comps) + (AdditionCards(additions) + ReplacementCards(reclaims)) ==
             Named(comps, additions, reclaims);
    }
  }

  lemma {:induction false} LaidKeepsCards(comps: seq<Comp>)
    requires AllOk(comps)
    ensures LayComps(comps).Some? ==> TableCards(LayComps(comps).value.comps) == TableCards(comps)
  {
    hide LaidComp, CompPoints, CompOk;
    if LayComps(comps).Some? {
      if comps != [] {
        var k := |comps| - 1;
        LaidKeepsCards(comps[..k]);
        LaidCompOk(comps[k]);
        var s, c := LayComps(comps[..k]).value, LaidComp(comps[k]).value;
        assert (s.comps + [c])[..|s.comps + [c]| - 1] == s.comps;
      }
    }
  }

  // ---------------------------------------------------------------- using the drawn discard

  predicate UsesCard(comps: seq<Comp>, additions: seq<Addition>, reclaims: seq<JokerReclaim>, target: Card) {
    || (exists i :: 0 <= i < |comps| && target in comps[i].cards)
    || (exists i :: 0 <= i < |additions| && target in additions[i].cards)
    || (exists i :: 0 <= i < |reclaims| && reclaims[i].replacement == target)
  }

  lemma {:induction false} InTableCards(comps: seq<Comp>, target: Card)
    ensures target in TableCards(comps) <==> exists i :: 0 <= i < |comps| && target in comps[i].cards
  {
    if comps != [] {
      var k := |comps| - 1;
      InTableCards(comps[..k], target);
      if i :| 0 <= i < |comps| && target in comps[i].cards {
        assert i == k || target in comps[..k][i].cards;
      }
      if i :| 0 <= i < k && target in comps[..k][i].cards {
        assert target in comps[i].cards;
      }
    }
  }

  lemma {:induction false} InAdditionCards(additions: seq<Addition>, target: Card)
    ensures target in AdditionCards(additions) <==> exists i :: 0 <= i < |additions| && target in additions[i].cards
  {
    if additions != [] {
      var k := |additions| - 1;
      InAdditionCards(additions[..k], target);
      if i :| 0 <= i < |additions| && target in additions[i].cards {
        assert i == k || target in additions[..k][i].cards;
      }
      if i :| 0 <= i < k && target in additions[..k][i].cards {
        assert target in additions[i].cards;
      }
    }
  }

  lemma {:induction false} InReplacementCards(reclaims: seq<JokerReclaim>, target: Card)
    ensures target in ReplacementCards(reclaims) <==>
              exists i :: 0 <= i < |reclaims| && reclaims[i].replacement == target
  {
    if reclaims != [] {
      var k := |reclaims| - 1;
      InReplacementCards(reclaims[..k], target);
      if i :| 0 <= i < |reclaims| && reclaims[i].replacement == target {
        assert i == k || reclaims[..k][i].replacement == target;
      }
      if i :| 0 <= i < k && reclaims[..k][i].replacement == target {
        assert reclaims[i].replacement == target;
      }
    }
  }

  /** A play uses a card exactly when the card is among those it takes from the hand. */
  lemma UsesCardIff(comps: seq<Comp>, additions: seq<Addition>, reclaims: seq<JokerReclaim>, target: Card)
    ensures UsesCard(comps, additions, reclaims, target) <==> target in Named(comps, additions, reclaims)
  {
    InTableCards(comps, target);
    InAdditionCards(additions, target);
    InReplacementCards(reclaims, target);
  }

  method HasCard(cards: seq<Card>, target: Card) returns (found: bool)
    ensures found <==> target in cards
  {
    for i := 0 to |cards|
      invariant target !in cards[..i]
    {
      if CardsEqual(cards[i], target) && cards[i].Joker? == target.Joker? {
        return true;
      }
    }
    return false;
  }

  method TablePlayUsesCard(comps: seq<Comp>, additions: seq<Addition>, reclaims: seq<JokerReclaim>, target: Card)
    returns (uses: bool)
    ensures uses <==> UsesCard(comps, additions, reclaims, target)
  {
    for i := 0 to |comps|
      invariant forall j :: 0 <= j < i ==> target !in comps[j].cards
    {
      var found := HasCard(comps[i].cards, target);
      if found {
        return true;
      }
    }
    for i := 0 to |additions|
      invariant forall j :: 0 <= j < i ==> target !in additions[j].cards
    {
      var found := HasCard(additions[i].cards, target);
      if found {
        return true;
      }
    }
    for i := 0 to |reclaims|
      invariant forall j :: 0 <= j < i ==> reclaims[j].replacement != target
    {
      if CardsEqual(reclaims[i].replacement, target) && reclaims[i].replacement.Joker? == target.Joker? {
        return true;
      }
    }
    return false;
  }
}
