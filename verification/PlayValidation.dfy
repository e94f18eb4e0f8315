/** validateTablePlay of state.go: a table play checked on an overlay of at most 32 changed
    compositions instead of a copy of the table. */
module PlayValidation {
  import opened Cards
  import opened Compositions
  import opened CompositionObjects
  import opened TablePlay
  import opened TableExecutor
  import opened Masks
  import opened SearchPlays

  const OVERLAY_SIZE := 32

  /** The changed compositions; `table` is the table they stand for. */
  class Overlay {
    const base: seq<Comp>
    const indices: array<int>
    const comps: array<Comp>
    var count: nat
    ghost var table: seq<Comp>

    ghost predicate Valid()
      reads this, indices, comps
    {
      && indices.Length == OVERLAY_SIZE && comps.Length == OVERLAY_SIZE
      && count <= OVERLAY_SIZE && |table| == |base|
      && (forall k :: 0 <= k < count ==> 0 <= indices[k] < |base| && comps[k] == table[indices[k]])
      && (forall j, k :: 0 <= j < k < count ==> indices[j] != indices[k])
      && (forall i :: 0 <= i < |base| && i !in indices[..count] ==> table[i] == base[i])
    }

    constructor (base: seq<Comp>)
      ensures Valid() && fresh(indices) && fresh(comps) && this.base == base && table == base && count == 0
    {
      this.base, table, count := base, base, 0;
      indices := new int[OVERLAY_SIZE](_ => 0);
      comps := new Comp[OVERLAY_SIZE](_ => Comp(Set, [], map[]));
    }

    /** The composition as changed so far. */
    method Current(index: int) returns (c: Comp)
      requires Valid() && 0 <= index < |base|
      ensures c == table[index]
    {
      for i := 0 to count
        invariant index !in indices[..i]
      {
        if indices[i] == index {
          return comps[i];
        }
      }
      return base[index];
    }

    method Store(index: int, c: Comp)
      requires Valid() && 0 <= index < |base| && count < OVERLAY_SIZE
      modifies this, indices, comps
      ensures Valid() && table == old(table)[index := c] && old(count) <= count <= old(count) + 1
    {
      table := table[index := c];
      for i := 0 to count
        invariant index !in indices[..i]
        invariant count == old(count) && table == old(table)[index := c]
        invariant indices[..] == old(indices[..]) && comps[..] == old(comps[..])
      {
        if indices[i] == index {
          comps[i] := c;
          assert indices[..count] == old(indices[..count]);
          return;
        }
      }
      indices[count], comps[count] := index, c;
      count := count + 1;
      assert indices[..count] == old(indices[..count]) + [index];
    }
  }

  // ---------------------------------------------------------------- the shared buffer

  /** The buffer starts with the cards of the mask. */
  ghost predicate Shows(buf: array<Card>, hand: seq<Card>, mask: nat)
    reads buf
  {
    |MaskCards(hand, mask)| <= buf.Length && buf[..|MaskCards(hand, mask)|] == MaskCards(hand, mask)
  }

  ghost predicate EachIs(masks: seq<nat>, mask: nat) {
    forall i :: 0 <= i < |masks| ==> masks[i] == mask
  }

  ghost predicate EachSelects(additions: seq<SelectedAddition>, mask: nat) {
    forall i :: 0 <= i < |additions| ==> additions[i].mask == mask
  }

  /** Select the cards of a mask in the buffer; whoever looks at it next sees them. */
  method Select(hand: seq<Card>, mask: nat, buf: array<Card>) returns (n: nat)
    requires |hand| <= buf.Length
    modifies buf
    ensures n <= buf.Length && buf[..n] == MaskCards(hand, mask) && Shows(buf, hand, mask)
  {
    n := CardsForMask(hand, mask, buf);
    assert n == |buf[..n]|;
  }

  // ---------------------------------------------------------------- new compositions

  lemma MaskPointsSnoc(hand: seq<Card>, masks: seq<nat>, variants: seq<Variant>, i: nat)
    requires i < |masks| == |variants| && MasksValid(hand, masks[..i], variants[..i])
    requires ValidCards(variants[i], MaskCards(hand, masks[i]))
    ensures MasksValid(hand, masks[..i + 1], variants[..i + 1])
    ensures MaskPoints(hand, masks[..i + 1], variants[..i + 1]) ==
            MaskPoints(hand, masks[..i], variants[..i]) + Points(variants[i], MaskCards(hand, masks[i]))
  {
    hide ValidCards, Points, MaskCards;
    assert masks[..i + 1][..i] == masks[..i] && variants[..i + 1][..i] == variants[..i];
  }

  /** Build the composition of one mask from the shared buffer and score it. */
  method ScoreMask(hand: seq<Card>, mask: nat, variant: Variant, buf: array<Card>) returns (points: Option<nat>)
    requires |hand| <= buf.Length
    modifies buf
    ensures Shows(buf, hand, mask)
    ensures points ==
            if ValidCards(variant, MaskCards(hand, mask)) then Some(Points(variant, MaskCards(hand, mask))) else None
  {
    var n := Select(hand, mask, buf);
    var comp := NewComposition(buf[..n], variant, false);
    MakeCompOk(buf[..n], variant, false);
    if comp.None? {
      return None;
    }
    PointsIgnoreOrder(variant, buf[..n], comp.value.cards);
    var total := PointsOf(comp.value);
    return Some(total);
  }

  method ScoreMasks(hand: seq<Card>, masks: seq<nat>, variants: seq<Variant>,
                    buf: array<Card>, ghost mask: nat) returns (points: Option<int>)
    requires |hand| <= buf.Length && |masks| == |variants|
    modifies buf
    ensures EachIs(masks, mask) && old(Shows(buf, hand, mask)) ==> Shows(buf, hand, mask)
    ensures points.Some? <==> MasksValid(hand, masks, variants)
    ensures points.Some? ==> points.value == MaskPoints(hand, masks, variants)
  {
    hide ValidCards, Points, MaskCards;
    var openingPoints := 0;
    for i := 0 to |masks|
      invariant MasksValid(hand, masks[..i], variants[..i]) &&
                openingPoints == MaskPoints(hand, masks[..i], variants[..i])
      invariant EachIs(masks, mask) && old(Shows(buf, hand, mask)) ==> Shows(buf, hand, mask)
    {
      var p := ScoreMask(hand, masks[i], variants[i], buf);
      if p.None? {
        return None;
      }
      MaskPointsSnoc(hand, masks, variants, i);
      openingPoints := openingPoints + p.value;
    }
    assert masks[..|masks|] == masks && variants[..|variants|] == variants;
    return Some(openingPoints);
  }

  // ---------------------------------------------------------------- reclaims

  /** A reclaim on the overlay: done, put off, or refused. */
  method OverlayReclaim(overlay: Overlay, deferred: seq<Deferred>, reclaim: JokerReclaim, ghost s: Reclaiming)
    returns (next: Option<seq<Deferred>>)
    requires overlay.Valid() && overlay.table == s.table && deferred == s.deferred && AllOk(s.table) &&
             overlay.count < OVERLAY_SIZE
    modifies overlay, overlay.indices, overlay.comps
    ensures next.Some? <==> ReclaimStep(s, reclaim).Some?
    ensures next.Some? ==> var r := ReclaimStep(s, reclaim).value; next.value == r.deferred && overlay.table == r.table
    ensures overlay.Valid() && overlay.count <= old(overlay.count) + 1
  {
    if reclaim.compositionIndex < 0 || reclaim.compositionIndex >= |overlay.base| {
      return None;
    }
    var target := overlay.Current(reclaim.compositionIndex);
    ReclaimSucceeds(target, reclaim.jokerIndex, reclaim.replacement);
    hide ReclaimJoker, CompOk;
    if !CanReclaimJoker(target, reclaim.jokerIndex, reclaim.replacement) {
      var ambiguous := AmbiguousSetReclaim(target, reclaim.jokerIndex, reclaim.replacement);
      if ambiguous {
        return Some(deferred + [Deferred(reclaim, reclaim.jokerIndex)]);
      }
      return None;
    }
    var updated := Reclaim(target, reclaim.jokerIndex, reclaim.replacement);
    overlay.Store(reclaim.compositionIndex, updated.value);
    return Some(deferred);
  }

  lemma TableStaysOk(table: seq<Comp>, reclaims: seq<JokerReclaim>)
    requires AllOk(table) && ReclaimAll(table, reclaims).Some?
    ensures AllOk(ReclaimAll(table, reclaims).value.table) && |ReclaimAll(table, reclaims).value.table| == |table|
  {
    ReclaimAllKeeps(table, reclaims);
  }

  method OverlayReclaims(overlay: Overlay, reclaims: seq<JokerReclaim>) returns (deferred: Option<seq<Deferred>>)
    requires overlay.Valid() && AllOk(overlay.table) && overlay.count + |reclaims| <= OVERLAY_SIZE
    modifies overlay, overlay.indices, overlay.comps
    ensures deferred.Some? <==> ReclaimAll(old(overlay.table), reclaims).Some?
    ensures deferred.Some? ==> var r := ReclaimAll(old(overlay.table), reclaims).value;
                               deferred.value == r.deferred && overlay.table == r.table && AllOk(r.table)
    ensures overlay.Valid() && overlay.count <= old(overlay.count) + |reclaims|
  {
    hide CompOk, ReclaimStep;
    var waiting: seq<Deferred> := [];
    ghost var s := Reclaiming(overlay.table, [], [], []);
    for i := 0 to |reclaims|
      invariant ReclaimAll(old(overlay.table), reclaims[..i]) == Some(s) && AllOk(s.table)
      invariant overlay.Valid() && overlay.table == s.table && waiting == s.deferred &&
                overlay.count <= old(overlay.count) + i
    {
      PrefixStep(reclaims, i);
      var next := OverlayReclaim(overlay, waiting, reclaims[i], s);
      if next.None? {
        ReclaimAllFails(old(overlay.table), reclaims, i);
        return None;
      }
      waiting := next.value;
      s := ReclaimStep(s, reclaims[i]).value;
      TableStaysOk(old(overlay.table), reclaims[..i + 1]);
    }
    assert reclaims[..|reclaims|] == reclaims;
    return Some(waiting);
  }

  // ---------------------------------------------------------------- additions

  method OverlayAddition(overlay: Overlay, hand: seq<Card>, deferred: seq<Deferred>, addition: SelectedAddition,
                         buf: array<Card>, ghost s: Adding)
    returns (next: Option<seq<Deferred>>, points: int)
    requires overlay.Valid() && overlay.table == s.table && deferred == s.deferred && AllOk(s.table)
    requires overlay.count < OVERLAY_SIZE && |hand| <= buf.Length
    modifies buf, overlay, overlay.indices, overlay.comps
    ensures next.Some? <==> AddStep(s, AdditionOf(hand, addition)).Some?
    ensures next.Some? ==> var r := AddStep(s, AdditionOf(hand, addition)).value;
                           next.value == r.deferred && overlay.table == r.table && s.points + points == r.points
    ensures old(Shows(buf, hand, addition.mask)) ==> Shows(buf, hand, addition.mask)
    ensures overlay.Valid() && overlay.count <= old(overlay.count) + 1
  {
    hide WithInsertedCards, CompPoints, MaskCards;
    points := 0;
    if addition.compositionIndex < 0 || addition.compositionIndex >= |overlay.base| {
      return None, 0;
    }
    var n := Select(hand, addition.mask, buf);
    if n == 0 {
      return None, 0;
    }
    var cards := buf[..n];
    var target := overlay.Current(addition.compositionIndex);
    var insertIndex := |target.cards|;
    if addition.insertIndex.Some? {
      insertIndex := addition.insertIndex.value;
    }
    var shifted := ShiftPending(deferred, addition.compositionIndex, insertIndex, |cards|);
    var extended, gained := Extend(target, insertIndex, cards);
    if extended.None? {
      return None, 0;
    }
    overlay.Store(addition.compositionIndex, extended.value);
    return Some(shifted), gained;
  }

  lemma AdditionsStep(hand: seq<Card>, additions: seq<SelectedAddition>, i: nat)
    requires i < |additions|
    ensures AdditionsOf(hand, additions)[..i + 1][..i] == AdditionsOf(hand, additions)[..i]
    ensures AdditionsOf(hand, additions)[..i + 1][i] == AdditionOf(hand, additions[i])
  {
  }

  method OverlayAdditions(overlay: Overlay, hand: seq<Card>, deferred: seq<Deferred>,
                          additions: seq<SelectedAddition>, buf: array<Card>, ghost mask: nat)
    returns (next: Option<seq<Deferred>>, points: int)
    requires overlay.Valid() && AllOk(overlay.table) && overlay.count + |additions| <= OVERLAY_SIZE
    requires |hand| <= buf.Length
    modifies buf, overlay, overlay.indices, overlay.comps
    ensures var r := AddAll(Adding(old(overlay.table), deferred, [], 0), AdditionsOf(hand, additions));
            (next.Some? <==> r.Some?) &&
            (next.Some? ==>
               next.value == r.value.deferred && overlay.table == r.value.table && points == r.value.points &&
               AllOk(overlay.table))
    ensures EachSelects(additions, mask) && old(Shows(buf, hand, mask)) ==> Shows(buf, hand, mask)
    ensures overlay.Valid() && overlay.count <= old(overlay.count) + |additions|
  {
    hide CompOk, AddStep, MaskCards, Shows, TableCards;
    ghost var start := Adding(overlay.table, deferred, [], 0);
    ghost var all := AdditionsOf(hand, additions);
    ghost var s := start;
    var waiting := deferred;
    points := 0;
    NothingAdded(start);
    for i := 0 to |additions|
      invariant AddAll(start, all[..i]) == Some(s) && AddsKeep(start.table, s)
      invariant overlay.Valid() && overlay.table == s.table && waiting == s.deferred && points == s.points
      invariant overlay.count <= old(overlay.count) + i
      invariant EachSelects(additions, mask) && old(Shows(buf, hand, mask)) ==> Shows(buf, hand, mask)
    {
      AdditionsStep(hand, additions, i);
      var after, gained := OverlayAddition(overlay, hand, waiting, additions[i], buf, s);
      if after.None? {
        AddAllFails(start, all, i);
        return None, 0;
      }
      AddStepKeeps(start.table, s, all[i]);
      s := AddStep(s, all[i]).value;
      waiting, points := after.value, points + gained;
    }
    assert all[..|additions|] == all;
    return Some(waiting), points;
  }

  lemma NothingAdded(start: Adding)
    requires AllOk(start.table) && start.played == []
    ensures AddsKeep(start.table, start)
  {
    assert TableCards(start.table) == TableCards(start.table) + multiset(start.played);
  }

  // ---------------------------------------------------------------- waiting reclaims

  method OverlayWaiting(overlay: Overlay, deferred: seq<Deferred>, ghost start: Finishing) returns (ok: bool)
    requires overlay.Valid() && overlay.table == start.table && AllOk(start.table) && AllJokerCards(start.reclaimed)
    requires overlay.count + |deferred| <= OVERLAY_SIZE && start.played == [] && InRange(deferred, |start.table|)
    modifies overlay, overlay.indices, overlay.comps
    ensures ok <==> FinishAll(start, deferred).Some?
  {
    hide CompOk, ReclaimJoker;
    ghost var s := start;
    for i := 0 to |deferred|
      invariant FinishAll(start, deferred[..i]) == Some(s) && |s.table| == |start.table|
      invariant overlay.Valid() && overlay.table == s.table && overlay.count <= old(overlay.count) + i
    {
      PrefixStep(deferred, i);
      FinishFromHere(start.table, start.reclaimed, deferred[..i]);
      var ok' := OverlayFinish(overlay, deferred[i], s);
      if !ok' {
        FinishAllFails(start, deferred, i);
        return false;
      }
      s := FinishStep(s, deferred[i]).value;
    }
    assert deferred[..|deferred|] == deferred;
    return true;
  }

  method OverlayFinish(overlay: Overlay, pending: Deferred, ghost s: Finishing) returns (ok: bool)
    requires overlay.Valid() && overlay.table == s.table && AllOk(s.table) && overlay.count < OVERLAY_SIZE
    requires 0 <= pending.reclaim.compositionIndex < |s.table|
    modifies overlay, overlay.indices, overlay.comps
    ensures ok <==> FinishStep(s, pending).Some?
    ensures ok ==> overlay.table == FinishStep(s, pending).value.table
    ensures overlay.Valid() && overlay.count <= old(overlay.count) + 1
  {
    var target := overlay.Current(pending.reclaim.compositionIndex);
    ReclaimSucceeds(target, pending.jokerIndex, pending.reclaim.replacement);
    hide ReclaimJoker, CompOk;
    if !CanReclaimJoker(target, pending.jokerIndex, pending.reclaim.replacement) {
      return false;
    }
    var updated := Reclaim(target, pending.jokerIndex, pending.reclaim.replacement);
    overlay.Store(pending.reclaim.compositionIndex, updated.value);
    return true;
  }

  // ---------------------------------------------------------------- the whole check

  /** The points gained on the table, or nothing if the table does not take the play. */
  method OverlayMoves(s: SearchState, additions: seq<SelectedAddition>, reclaims: seq<JokerReclaim>, buf: array<Card>,
                      ghost mask: nat)
    returns (points: Option<int>)
    requires AllOk(s.table) && |s.hand| <= buf.Length && 2 * |reclaims| + |additions| <= OVERLAY_SIZE
    modifies buf
    ensures var m := TableMoves(s.table, AdditionsOf(s.hand, additions), reclaims);
            (points.Some? <==> m.Some?) && (points.Some? ==> points.value == m.value.points)
    ensures EachSelects(additions, mask) && old(Shows(buf, s.hand, mask)) ==> Shows(buf, s.hand, mask)
  {
    hide CompOk, ReclaimAll, AddAll, FinishAll;
    ReclaimAllKeeps(s.table, reclaims);
    var overlay := new Overlay(s.table);
    var deferred := OverlayReclaims(overlay, reclaims);
    if deferred.None? {
      return None;
    }
    ghost var r := ReclaimAll(s.table, reclaims).value;
    ghost var start := Adding(r.table, r.deferred, [], 0);
    NothingAdded(start);
    AddAllKeeps(r.table, start, AdditionsOf(s.hand, additions));
    WaitingInRange(s.table, reclaims);
    StillInRange(start, AdditionsOf(s.hand, additions), |s.table|);
    var waiting, gained := OverlayAdditions(overlay, s.hand, deferred.value, additions, buf, mask);
    if waiting.None? {
      return None;
    }
    var finished := OverlayWaiting(overlay, waiting.value, Finishing(overlay.table, r.reclaimed, []));
    if !finished {
      return None;
    }
    return Some(gained);
  }

  method ValidateTablePlay(s: SearchState, p: SearchPlay, hasDiscardPlay: bool, buf: array<Card>, ghost mask: nat)
    returns (valid: bool)
    requires AllOk(s.table) && |s.hand| <= buf.Length && |p.masks| == |p.variants|
    requires 2 * |p.reclaims| + |p.additions| <= OVERLAY_SIZE
    modifies buf
    ensures valid <==> hasDiscardPlay && ValidPlay(s, p)
    ensures EachIs(p.masks, mask) && EachSelects(p.additions, mask) && old(Shows(buf, s.hand, mask)) ==>
              Shows(buf, s.hand, mask)
  {
    hide CompOk, MasksValid, MaskPoints, TableMoves, AdditionsOf;
    if !hasDiscardPlay {
      return false;
    }
    if |p.masks| == 0 && |p.additions| == 0 && |p.reclaims| == 0 {
      return false;
    }
    var openingPoints := ScoreMasks(s.hand, p.masks, p.variants, buf, mask);
    if openingPoints.None? {
      return false;
    }
    var gained := OverlayMoves(s, p.additions, p.reclaims, buf, mask);
    if gained.None? {
      return false;
    }
    if !s.hasOpened && |p.masks| == 0 {
      return false;
    }
    if !s.hasOpened && openingPoints.value + gained.value < OPENING_POINTS {
      return false;
    }
    return |s.hand| - OnesCount(p.used) + |p.reclaims| - s.syntheticReclaims != 0;
  }
}
