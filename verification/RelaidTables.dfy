/** Tables whose runs have been laid out again: a play that the table took before it takes afterwards, for the
    same points and the same jokers. */
module RelaidTables {
  import opened Cards
  import opened RunLayout
  import opened Compositions
  import opened Piles
  import opened TablePlay
  import opened WaitingReclaims
  import opened PlayedCards
  import opened Masks
  import opened SearchPlays
  import opened SearchChoices
  import opened DiscardSearch

  /** The same composition but for the layout of a run. */
  ghost predicate Relaid(c: Comp, d: Comp) {
    d.variant == c.variant && (if c.variant == Set then d == c else multiset(d.cards) == multiset(c.cards))
  }

  /** Only a run that offered no joker has been laid out again. */
  ghost predicate QuietlyRelaid(c: Comp, d: Comp) {
    d == c || (Relaid(c, d) && c.variant == Run && c.representations == map[])
  }

  ghost predicate AllRelaid(table: seq<Comp>, other: seq<Comp>) {
    |other| == |table| && forall i :: 0 <= i < |table| ==> Relaid(table[i], other[i])
  }

  ghost predicate AllQuietlyRelaid(table: seq<Comp>, other: seq<Comp>) {
    |other| == |table| && forall i :: 0 <= i < |table| ==> QuietlyRelaid(table[i], other[i])
  }

  lemma QuietlyIsRelaid(table: seq<Comp>, other: seq<Comp>)
    requires AllQuietlyRelaid(table, other)
    ensures AllRelaid(table, other)
  {
  }

  // ---------------------------------------------------------------- immediate reclaims

  lemma {:induction false} ReclaimsCarry(table: seq<Comp>, other: seq<Comp>, reclaims: seq<JokerReclaim>)
    requires AllQuietlyRelaid(table, other) && ReclaimAll(table, reclaims).Some?
    ensures var r, q := ReclaimAll(table, reclaims), ReclaimAll(other, reclaims);
            q.Some? && q.value == r.value.(table := q.value.table) && AllQuietlyRelaid(r.value.table, q.value.table)
  {
    hide MakeComp;
    if reclaims != [] {
      ReclaimsCarry(table, other, reclaims[..|reclaims| - 1]);
    }
  }

  // ---------------------------------------------------------------- additions

  lemma InsertionCarries(c: Comp, d: Comp, index: int, cards: seq<Card>)
    requires CompOk(c) && Relaid(c, d) && WithInsertedCards(c, index, cards).Some?
    ensures var x, y := WithInsertedCards(c, index, cards), WithInsertedCards(d, index, cards);
            |d.cards| == |c.cards| && y.Some? && Relaid(x.value, y.value) &&
            CompPoints(y.value) == CompPoints(x.value) && CompPoints(d) == CompPoints(c)
  {
    if c.variant == Run {
      SameMultisetSameLength(c.cards, d.cards);
      var x, y := Inserted(c.cards, index, cards), Inserted(d.cards, index, cards);
      InsertedCards(c.cards, index, cards);
      InsertedCards(d.cards, index, cards);
      SameRun(x, y);
      NormalizedKeepsCards(x);
      NormalizedKeepsCards(y);
      PointsIgnoreOrder(Run, c.cards, d.cards);
      PointsIgnoreOrder(Run, Normalized(x), Normalized(y));
    }
  }

  ghost predicate AddingCarried(a: Option<Adding>, b: Option<Adding>) {
    a.Some? ==> b.Some? && b.value == a.value.(table := b.value.table) && AllRelaid(a.value.table, b.value.table)
  }

  lemma {:induction false} AdditionsCarry(s: Adding, other: seq<Comp>, additions: seq<Addition>)
    requires AllOk(s.table) && AllRelaid(s.table, other)
    ensures AddingCarried(AddAll(s, additions), AddAll(s.(table := other), additions))
  {
    if additions != [] {
      var front, a := additions[..|additions| - 1], additions[|additions| - 1];
      AdditionsCarry(s, other, front);
      var r := AddAll(s, front);
      if r.Some? && AddStep(r.value, a).Some? {
        AdditionsStayOk(s, front);
        hide AllOk, CompOk, WithInsertedCards, Relaid, CompPoints;
        AdditionCarries(r.value, AddAll(s.(table := other), front).value, a);
      }
    }
  }

  lemma {:induction false} AdditionsStayOk(s: Adding, additions: seq<Addition>)
    requires AllOk(s.table) && AddAll(s, additions).Some?
    ensures AllOk(AddAll(s, additions).value.table)
  {
    hide WithInsertedCards, CompOk, CompPoints;
    if additions != [] {
      var front, a := additions[..|additions| - 1], additions[|additions| - 1];
      AdditionsStayOk(s, front);
      var t := AddAll(s, front).value;
      InsertionAdds(t.table[a.compositionIndex], InsertIndexOf(t.table[a.compositionIndex], a), a.cards);
    }
  }

  lemma AdditionCarries(s: Adding, t: Adding, a: Addition)
    requires AllOk(s.table) && AddStep(s, a).Some? && t == s.(table := t.table) && AllRelaid(s.table, t.table)
    ensures AddingCarried(AddStep(s, a), AddStep(t, a))
  {
    hide WithInsertedCards, CompPoints, CompOk;
    var c, d := s.table[a.compositionIndex], t.table[a.compositionIndex];
    InsertionCarries(c, d, InsertIndexOf(c, a), a.cards);
  }

  // ---------------------------------------------------------------- waiting reclaims

  lemma {:induction false} FinishingCarries(s: Finishing, other: seq<Comp>, deferred: seq<Deferred>)
    requires AllRelaid(s.table, other) && OfSets(s.table, deferred) && FinishAll(s, deferred).Some?
    ensures var f, g := FinishAll(s, deferred), FinishAll(s.(table := other), deferred);
            g.Some? && g.value == f.value.(table := g.value.table) && AllRelaid(f.value.table, g.value.table) &&
            SameSets(s.table, f.value.table)
  {
    hide ReclaimJoker;
    if deferred != [] {
      var front, d := deferred[..|deferred| - 1], deferred[|deferred| - 1];
      FinishingCarries(s, other, front);
      var f := FinishAll(s, front).value;
      SetReclaimed(f.table[d.reclaim.compositionIndex], d.jokerIndex, d.reclaim.replacement);
    }
  }

  // ---------------------------------------------------------------- the whole play

  ghost predicate MovesCarried(m: Option<Moved>, q: Option<Moved>) {
    m.Some? ==> q.Some? && q.value == m.value.(table := q.value.table) && AllRelaid(m.value.table, q.value.table)
  }

  lemma MovesCarry(table: seq<Comp>, other: seq<Comp>, additions: seq<Addition>, reclaims: seq<JokerReclaim>)
    requires AllOk(table) && AllQuietlyRelaid(table, other)
    ensures MovesCarried(TableMoves(table, additions, reclaims), TableMoves(other, additions, reclaims))
  {
    hide ReclaimAll, AddAll, FinishAll, AllOk, OfSets, AllQuietlyRelaid, AllRelaid;
    if TableMoves(table, additions, reclaims).Some? {
      ReclaimsCarry(table, other, reclaims);
      ReclaimAllKeeps(table, reclaims);
      var r, q := ReclaimAll(table, reclaims).value, ReclaimAll(other, reclaims).value;
      QuietlyIsRelaid(r.table, q.table);
      var start := Adding(r.table, r.deferred, [], 0);
      AdditionsCarry(start, q.table, additions);
      var a, b := AddAll(start, additions).value, AddAll(start.(table := q.table), additions).value;
      WaitingOfSets(table, additions, reclaims);
      FinishingCarries(Finishing(a.table, r.reclaimed, []), b.table, a.deferred);
    }
  }

  lemma {:induction false} AppendRelaid(table: seq<Comp>, other: seq<Comp>, more: seq<Comp>)
    requires AllRelaid(table, other)
    ensures AllRelaid(table + more, other + more)
  {
  }

  /** A play the table took is taken by the relaid table, leaving the same hand and a relaid table. */
  lemma PlayCarries(s: TableState, other: seq<Comp>, comps: seq<Comp>, additions: seq<Addition>,
                    reclaims: seq<JokerReclaim>)
    requires AllOk(s.table) && AllQuietlyRelaid(s.table, other) &&
             ApplyTablePlay(s, comps, additions, reclaims).Success?
    ensures var r, q := ApplyTablePlay(s, comps, additions, reclaims),
                        ApplyTablePlay(s.(table := other), comps, additions, reclaims);
            q.Success? && q.value == r.value.(table := q.value.table) && AllRelaid(r.value.table, q.value.table)
  {
    hide TableMoves, LayComps, AllOk, AllQuietlyRelaid, AllRelaid, OpensFromHand;
    MovesCarry(s.table, other, additions, reclaims);
    var m, q := TableMoves(s.table, additions, reclaims).value, TableMoves(other, additions, reclaims).value;
    AppendRelaid(m.table, q.table, LayComps(comps).value.comps);
  }

  lemma ReclaimableCarries(table: seq<Comp>, other: seq<Comp>, hand: seq<Card>)
    requires AllQuietlyRelaid(table, other) && Reclaimable(table, hand)
    ensures Reclaimable(other, hand)
  {
    var ci, ji, k :| 0 <= ci < |table| && 0 <= k < |hand| && CanReclaimJoker(table[ci], ji, hand[k]);
    assert other[ci] == table[ci];
  }

  /** A play the search accepted on the table it would accept on the relaid table. */
  lemma AcceptedCarries(t: SearchState, q: SearchPlay, hand: seq<Card>, other: seq<Comp>)
    requires AllOk(t.table) && AllQuietlyRelaid(t.table, other) && Accepted(t, q, q.reclaims) && BaseOf(t, hand, q)
    ensures Accepted(t.(table := other), q, q.reclaims) && BaseOf(t.(table := other), hand, q)
  {
    hide TableMoves, MasksValid, MaskPoints, Covers, AllOk, AllQuietlyRelaid, Reclaimable, AllRelaid, RunFiltered;
    MovesCarry(t.table, other, AdditionsOf(t.hand, q.additions), q.reclaims);
    CoversSame(t, q, other);
    FilteredCarries(t, q, other);
    if t.syntheticReclaims > 0 {
      ReclaimableCarries(t.table, other, hand[..|hand| - 1]);
    }
  }

  /** What a selection fits does not depend on the layout. */
  lemma FitsCarries(table: seq<Comp>, other: seq<Comp>, cards: seq<Card>, ci: nat)
    requires AllQuietlyRelaid(table, other)
    ensures Fits(table, cards, ci) <==> Fits(other, cards, ci)
  {
    hide ValidCards;
    if ci < |table| {
      var x, y := Inserted(table[ci].cards, 0, cards), Inserted(other[ci].cards, 0, cards);
      InsertedCards(table[ci].cards, 0, cards);
      InsertedCards(other[ci].cards, 0, cards);
      if ValidCards(table[ci].variant, x) {
        PointsIgnoreOrder(table[ci].variant, x, y);
      }
      if ValidCards(table[ci].variant, y) {
        PointsIgnoreOrder(table[ci].variant, y, x);
      }
    }
  }

  lemma ReadCarries(t: SearchState, other: seq<Comp>, mask: nat)
    requires t.hand != [] && AllQuietlyRelaid(t.table, other) && |other| == |t.table| && ReadAsRun(t, mask)
    ensures ReadAsRun(t.(table := other), mask)
  {
    hide ValidCards, AllQuietlyRelaid, Fits, MaskCards, LastFree;
    var u := t.(table := other);
    forall m: nat | LeftInBuffer(u, mask, m)
      ensures ValidCards(Run, MaskCards(u.hand, m)[..|MaskCards(u.hand, mask)|])
    {
      forall ci: nat
        ensures Fits(t.table, MaskCards(t.hand, m), ci) <==> Fits(other, MaskCards(t.hand, m), ci)
      {
        FitsCarries(t.table, other, MaskCards(t.hand, m), ci);
      }
      SameLastFree(t, other, mask, m);
      assert LeftInBuffer(t, mask, m);
    }
  }

  lemma SameLastFree(t: SearchState, other: seq<Comp>, used: nat, mask: nat)
    requires t.hand != []
    ensures LastFree(t.(table := other), used, mask) ==> LastFree(t, used, mask)
  {
  }

  lemma FilteredCarries(t: SearchState, q: SearchPlay, other: seq<Comp>)
    requires t.hand != [] && |q.masks| == |q.variants| && AllQuietlyRelaid(t.table, other) && RunFiltered(t, q)
    ensures RunFiltered(t.(table := other), q)
  {
    hide ReadAsRun, AllQuietlyRelaid, ValidCards, MaskCards;
    var u := t.(table := other);
    SameSize(t.table, other);
    forall i | 0 <= i < |q.masks| && RunOfSet(t, q.masks[i], q.variants[i]) && ReadAsRun(t, q.masks[i])
      ensures ReadAsRun(u, q.masks[i])
    {
      ReadCarries(t, other, q.masks[i]);
    }
  }

  lemma SameSize(table: seq<Comp>, other: seq<Comp>)
    requires AllQuietlyRelaid(table, other)
    ensures |other| == |table|
  {
  }

  lemma CoversSame(t: SearchState, q: SearchPlay, other: seq<Comp>)
    requires Covers(t, q, true)
    ensures Covers(t.(table := other), q, true)
  {
  }
}
