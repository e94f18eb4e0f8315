/** Set reclaims that wait (deferredReclaims in applyTablePlayState): however many cards are inserted
    meanwhile, each takes exactly the joker it was asked to take. */
module WaitingReclaims {
  import opened Cards
  import opened Compositions
  import opened TablePlay

  // ---------------------------------------------------------------- following cards through insertions

  const ADDED := -1

  function InsertIndexOf(target: Comp, a: Addition): int {
    if a.insertIndex.Some? then a.insertIndex.value else |target.cards|
  }

  /** The same insertion on a list of labels, the added places labelled ADDED. */
  function WithAdded(labels: seq<int>, index: nat, count: nat): (r: seq<int>)
    requires index <= |labels|
    ensures |r| == |labels| + count
  {
    labels[..index] + seq(count, _ => ADDED) + labels[index..]
  }

  function Upto(n: nat): (r: seq<int>)
    ensures |r| == n && forall i :: 0 <= i < n ==> r[i] == i
  {
    seq(n, i => i)
  }

  /** For each composition and each place in it, the place its card had before the additions. */
  ghost function Origins(s: Adding, additions: seq<Addition>): (r: seq<seq<int>>)
    requires AddAll(s, additions).Some?
    ensures |r| == |s.table| == |AddAll(s, additions).value.table|
    ensures forall i :: 0 <= i < |r| ==> |r[i]| == |AddAll(s, additions).value.table[i].cards|
  {
    if additions == [] then seq(|s.table|, i requires 0 <= i < |s.table| => Upto(|s.table[i].cards|))
    else
      var front, a := additions[..|additions| - 1], additions[|additions| - 1];
      var t, before := AddAll(s, front).value, Origins(s, front);
      var x := a.compositionIndex;
      ExtendedLength(t.table[x], InsertIndexOf(t.table[x], a), a.cards);
      before[x := WithAdded(before[x], InsertIndexOf(t.table[x], a), |a.cards|)]
  }

  lemma ExtendedLength(c: Comp, index: int, cards: seq<Card>)
    requires WithInsertedCards(c, index, cards).Some?
    ensures 0 <= index <= |c.cards| && |WithInsertedCards(c, index, cards).value.cards| == |c.cards| + |cards|
    ensures WithInsertedCards(c, index, cards).value.variant == c.variant
    ensures c.variant == Set ==> WithInsertedCards(c, index, cards).value.cards == Inserted(c.cards, index, cards)
  {
    var all := Inserted(c.cards, index, cards);
    if c.variant == Run {
      NormalizedKeepsCards(all);
      SameMultisetSameLength(Normalized(all), all);
    }
  }

  /** In a set the labels tell the truth: a labelled card is the card that was there. */
  ghost predicate Truthful(before: Comp, after: Comp, labels: seq<int>) {
    |labels| == |after.cards| &&
    forall p :: 0 <= p < |labels| && labels[p] != ADDED ==>
      0 <= labels[p] < |before.cards| && after.cards[p] == before.cards[labels[p]]
  }

  lemma StillTruthful(before: Comp, after: Comp, labels: seq<int>, index: int, cards: seq<Card>)
    requires Truthful(before, after, labels) && after.variant == Set && WithInsertedCards(after, index, cards).Some?
    ensures 0 <= index <= |labels| &&
            Truthful(before, WithInsertedCards(after, index, cards).value, WithAdded(labels, index, |cards|))
  {
    ExtendedLength(after, index, cards);
  }

  lemma TruthfulAtFirst(c: Comp)
    ensures Truthful(c, c, Upto(|c.cards|))
  {
  }

  lemma {:induction false} OriginsAreTrue(s: Adding, additions: seq<Addition>, x: nat)
    requires AddAll(s, additions).Some? && x < |s.table| && s.table[x].variant == Set
    ensures var labels, table := Origins(s, additions), AddAll(s, additions).value.table;
            x < |table| && x < |labels| && table[x].variant == Set && Truthful(s.table[x], table[x], labels[x])
  {
    hide WithInsertedCards, CompPoints, ShiftAll, Truthful, WithAdded;
    TruthfulAtFirst(s.table[x]);
    if additions != [] {
      var front, a := additions[..|additions| - 1], additions[|additions| - 1];
      OriginsAreTrue(s, front, x);
      var t := AddAll(s, front).value;
      if a.compositionIndex == x {
        ExtendedLength(t.table[x], InsertIndexOf(t.table[x], a), a.cards);
        StillTruthful(s.table[x], t.table[x], Origins(s, front)[x], InsertIndexOf(t.table[x], a), a.cards);
      }
    }
  }

  /** The adjusted index still carries the label of the place first chosen. */
  lemma ShiftFollows(labels: seq<int>, index: nat, count: nat, d: Deferred)
    requires index <= |labels| && 0 <= d.jokerIndex < |labels|
    ensures var e := ShiftDeferred(d, d.reclaim.compositionIndex, index, count);
            0 <= e.jokerIndex < |labels| + count &&
            WithAdded(labels, index, count)[e.jokerIndex] == labels[d.jokerIndex]
  {
  }

  /** Whatever is inserted where, a waiting reclaim keeps pointing at the place it was asked for. */
  lemma {:induction false} IndexFollowsItsJoker(s: Adding, additions: seq<Addition>, k: nat)
    requires AddAll(s, additions).Some? && k < |s.deferred|
    requires var d := s.deferred[k];
             0 <= d.reclaim.compositionIndex < |s.table| &&
             0 <= d.jokerIndex < |s.table[d.reclaim.compositionIndex].cards|
    ensures var r, d := AddAll(s, additions).value, s.deferred[k];
            |r.deferred| == |s.deferred| && r.deferred[k].reclaim == d.reclaim &&
            var labels := Origins(s, additions)[d.reclaim.compositionIndex];
            0 <= r.deferred[k].jokerIndex < |labels| && labels[r.deferred[k].jokerIndex] == d.jokerIndex
  {
    hide WithInsertedCards, CompPoints;
    if additions != [] {
      var front, a := additions[..|additions| - 1], additions[|additions| - 1];
      IndexFollowsItsJoker(s, front, k);
      var t, x := AddAll(s, front).value, a.compositionIndex;
      ExtendedLength(t.table[x], InsertIndexOf(t.table[x], a), a.cards);
      if t.deferred[k].reclaim.compositionIndex == x {
        ShiftFollows(Origins(s, front)[x], InsertIndexOf(t.table[x], a), |a.cards|, t.deferred[k]);
      }
    }
  }

  // ---------------------------------------------------------------- what waits

  /** A waiting reclaim names a joker of a set, one that could still be several cards. */
  ghost predicate Waits(table: seq<Comp>, d: Deferred) {
    var x := d.reclaim.compositionIndex;
    d.jokerIndex == d.reclaim.jokerIndex && 0 <= x < |table| &&
    IsAmbiguousSetReclaim(table[x], d.jokerIndex, d.reclaim.replacement)
  }

  /** A set with a joker that could be several cards gives none of its jokers away. */
  lemma AmbiguousGivesNothing(c: Comp, index: int, replacement: Card, other: int, card: Card)
    requires CompOk(c) && IsAmbiguousSetReclaim(c, index, replacement)
    ensures !CanReclaimJoker(c, other, card)
  {
  }

  /** Other reclaims leave the set of a waiting one alone. */
  lemma {:induction false} StillWaits(table: seq<Comp>, reclaims: seq<JokerReclaim>, k: nat)
    requires AllOk(table) && ReclaimAll(table, reclaims).Some? && k < |ReclaimAll(table, reclaims).value.deferred|
    ensures var r := ReclaimAll(table, reclaims).value; Waits(r.table, r.deferred[k])
  {
    hide IsAmbiguousSetReclaim, CanReclaimJoker, MakeComp, CompOk;
    var front, last := reclaims[..|reclaims| - 1], reclaims[|reclaims| - 1];
    var s := ReclaimAll(table, front).value;
    if k < |s.deferred| {
      StillWaits(table, front, k);
      ReclaimAllKeeps(table, front);
      var d := s.deferred[k];
      if last.compositionIndex == d.reclaim.compositionIndex {
        AmbiguousGivesNothing(s.table[last.compositionIndex], d.jokerIndex, d.reclaim.replacement, last.jokerIndex,
                              last.replacement);
      }
    }
  }

  // ---------------------------------------------------------------- finishing

  /** Each waiting reclaim has put its replacement where its joker was. */
  ghost predicate Replaced(table: seq<Comp>, deferred: seq<Deferred>) {
    forall k :: 0 <= k < |deferred| ==>
      var d := deferred[k];
      var x := d.reclaim.compositionIndex;
      0 <= x < |table| && 0 <= d.jokerIndex < |table[x].cards| && d.reclaim.replacement.Natural? &&
      table[x].cards[d.jokerIndex] == d.reclaim.replacement
  }

  /** The sets among the compositions are the same in number of cards. */
  ghost predicate SameSets(table: seq<Comp>, after: seq<Comp>) {
    |after| == |table| && forall x :: 0 <= x < |table| && table[x].variant == Set ==>
      after[x].variant == Set && |after[x].cards| == |table[x].cards|
  }

  lemma SetReclaimed(c: Comp, index: int, replacement: Card)
    requires c.variant == Set && ReclaimJoker(c, index, replacement).Some?
    ensures CanReclaimJoker(c, index, replacement)
    ensures var d := ReclaimJoker(c, index, replacement).value;
            d.variant == Set && d.cards == c.cards[index := replacement]
  {
  }

  predicate OfSets(table: seq<Comp>, deferred: seq<Deferred>) {
    forall k :: 0 <= k < |deferred| ==>
      0 <= deferred[k].reclaim.compositionIndex < |table| && table[deferred[k].reclaim.compositionIndex].variant == Set
  }

  lemma {:induction false} FinishReplaces(s: Finishing, deferred: seq<Deferred>)
    requires OfSets(s.table, deferred) && FinishAll(s, deferred).Some?
    ensures var f := FinishAll(s, deferred).value; SameSets(s.table, f.table) && Replaced(f.table, deferred)
  {
    hide ReclaimJoker;
    if deferred != [] {
      var front, d := deferred[..|deferred| - 1], deferred[|deferred| - 1];
      FinishReplaces(s, front);
      var g := FinishAll(s, front).value;
      SetReclaimed(g.table[d.reclaim.compositionIndex], d.jokerIndex, d.reclaim.replacement);
    }
  }

  lemma {:induction false} AddedDeferred(s: Adding, additions: seq<Addition>)
    requires AddAll(s, additions).Some?
    ensures |AddAll(s, additions).value.deferred| == |s.deferred|
  {
    hide WithInsertedCards, CompPoints;
    if additions != [] {
      AddedDeferred(s, additions[..|additions| - 1]);
    }
  }

  /** When the additions are done, what waits still waits for sets. */
  lemma WaitingOfSets(table: seq<Comp>, additions: seq<Addition>, reclaims: seq<JokerReclaim>)
    requires AllOk(table) && ReclaimAll(table, reclaims).Some?
    requires var r := ReclaimAll(table, reclaims).value; AddAll(Adding(r.table, r.deferred, [], 0), additions).Some?
    ensures var r := ReclaimAll(table, reclaims).value;
            var a := AddAll(Adding(r.table, r.deferred, [], 0), additions).value;
            |a.deferred| == |r.deferred| && OfSets(a.table, a.deferred)
  {
    hide ReclaimAll, AddAll, Origins;
    var r := ReclaimAll(table, reclaims).value;
    var start := Adding(r.table, r.deferred, [], 0);
    var a := AddAll(start, additions).value;
    AddedDeferred(start, additions);
    forall i | 0 <= i < |a.deferred|
      ensures 0 <= a.deferred[i].reclaim.compositionIndex < |a.table| &&
              a.table[a.deferred[i].reclaim.compositionIndex].variant == Set
    {
      StillWaits(table, reclaims, i);
      IndexFollowsItsJoker(start, additions, i);
      OriginsAreTrue(start, additions, a.deferred[i].reclaim.compositionIndex);
    }
  }

  /** If a play succeeds on the table, every waiting reclaim has put its replacement in the place of the
      very joker it named: the place the additions carried that joker to. */
  lemma WaitingReclaimsTakeTheirJoker(table: seq<Comp>, additions: seq<Addition>, reclaims: seq<JokerReclaim>, k: nat)
    requires AllOk(table) && TableMoves(table, additions, reclaims).Some? &&
             k < |ReclaimAll(table, reclaims).value.deferred|
    ensures var m, r := TableMoves(table, additions, reclaims).value, ReclaimAll(table, reclaims).value;
            var d := r.deferred[k].reclaim;
            var start := Adding(r.table, r.deferred, [], 0);
            && 0 <= d.compositionIndex < |r.table| == |m.table|
            && 0 <= d.jokerIndex < |r.table[d.compositionIndex].cards|
            && r.table[d.compositionIndex].cards[d.jokerIndex] == Joker
            && AddAll(start, additions).Some?
            && var labels := Origins(start, additions)[d.compositionIndex];
               |labels| == |m.table[d.compositionIndex].cards| &&
               exists p ::
                 0 <= p < |labels| && labels[p] == d.jokerIndex && m.table[d.compositionIndex].cards[p] == d.replacement
  {
    hide ReclaimAll, AddAll, FinishAll, Origins;
    var r := ReclaimAll(table, reclaims).value;
    var start := Adding(r.table, r.deferred, [], 0);
    var a := AddAll(start, additions).value;
    StillWaits(table, reclaims, k);
    IndexFollowsItsJoker(start, additions, k);
    WaitingOfSets(table, additions, reclaims);
    FinishReplaces(Finishing(a.table, r.reclaimed, []), a.deferred);
  }
}
