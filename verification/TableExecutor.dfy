/** The loops of applyTablePlayState, proved against the phases of TablePlay. */
module TableExecutor {
  import opened Cards
  import opened RunSpec
  import opened RunLayout
  import opened Compositions
  import opened CompositionObjects
  import opened Piles
  import opened TablePlay

  lemma PrefixStep<T>(s: seq<T>, i: nat)
    requires i < |s|
    ensures s[..i + 1][..i] == s[..i] && s[..i + 1][i] == s[i]
  {
  }

  /** Normalise a new composition after checking that its order is one the engine recognises. */
  method LayOne(c: Comp) returns (r: Option<Comp>)
    ensures r == LaidComp(c)
  {
    var comp := new Composition.Of(c);
    var valid := comp.IsValid();
    if !valid {
      return None;
    }
    if comp.variant == Run {
      var ordered := RunCardsAreOrdered(comp.cards);
      var reverseOrdered := RunCardsAreReverseOrdered(comp.cards);
      if !ordered && !reverseOrdered {
        return None;
      }
      var _ := comp.NormalizeRunCards();
    }
    return Some(comp.Value());
  }

  lemma {:induction false} LayCompsFails(comps: seq<Comp>, i: nat)
    requires i < |comps| && LayComps(comps[..i + 1]) == None
    ensures LayComps(comps) == None
    decreases |comps|
  {
    if i + 1 < |comps| {
      var front := comps[..|comps| - 1];
      assert front[..i + 1] == comps[..i + 1];
      LayCompsFails(front, i);
    } else {
      assert comps[..i + 1] == comps;
    }
  }

  method LayCompositions(comps: seq<Comp>) returns (r: Option<Laid>)
    requires AllOk(comps)
    ensures r == LayComps(comps)
  {
    hide LaidComp;
    var laid: seq<Comp>, playedCards: seq<Card>, openingPoints := [], [], 0;
    for i := 0 to |comps|
      invariant LayComps(comps[..i]) == Some(Laid(laid, playedCards, openingPoints))
    {
      PrefixStep(comps, i);
      var comp := LayOne(comps[i]);
      if comp.None? {
        LayCompsFails(comps, i);
        return None;
      }
      LaidCompOk(comps[i]);
      var points := PointsOf(comp.value);
      laid, playedCards, openingPoints := laid + [comp.value], playedCards + comp.value.cards, openingPoints + points;
    }
    assert comps[..|comps|] == comps;
    return Some(Laid(laid, playedCards, openingPoints));
  }

  method AmbiguousSetReclaim(c: Comp, index: int, replacement: Card) returns (ambiguous: bool)
    ensures ambiguous <==> IsAmbiguousSetReclaim(c, index, replacement)
  {
    if c.variant != Set || index < 0 || index >= |c.cards| || c.cards[index].Natural? || replacement.Joker? {
      return false;
    }
    if index !in c.representations || |c.representations[index]| <= 1 {
      return false;
    }
    var options := c.representations[index];
    for k := 0 to |options|
      invariant forall j :: 0 <= j < k ==> !CardsEqual(options[j], replacement)
    {
      if CardsEqual(options[k], replacement) {
        return true;
      }
    }
    return false;
  }

  method ReclaimOne(s: Reclaiming, reclaim: JokerReclaim) returns (r: Option<Reclaiming>)
    ensures r == ReclaimStep(s, reclaim)
  {
    if reclaim.compositionIndex < 0 || reclaim.compositionIndex >= |s.table| {
      return None;
    }
    var target := s.table[reclaim.compositionIndex];
    var updated := Reclaim(target, reclaim.jokerIndex, reclaim.replacement);
    if updated.None? {
      var ambiguous := AmbiguousSetReclaim(target, reclaim.jokerIndex, reclaim.replacement);
      if ambiguous {
        return Some(s.(deferred := s.deferred + [Deferred(reclaim, reclaim.jokerIndex)]));
      }
      return None;
    }
    return Some(Reclaiming(s.table[reclaim.compositionIndex := updated.value], s.deferred,
                           s.reclaimed + [target.cards[reclaim.jokerIndex]], s.played + [reclaim.replacement]));
  }

  lemma {:induction false} ReclaimAllFails(table: seq<Comp>, reclaims: seq<JokerReclaim>, i: nat)
    requires i < |reclaims| && ReclaimAll(table, reclaims[..i + 1]) == None
    ensures ReclaimAll(table, reclaims) == None
    decreases |reclaims|
  {
    if i + 1 < |reclaims| {
      var front := reclaims[..|reclaims| - 1];
      assert front[..i + 1] == reclaims[..i + 1];
      ReclaimAllFails(table, front, i);
    } else {
      assert reclaims[..i + 1] == reclaims;
    }
  }

  method ReclaimJokers(table: seq<Comp>, reclaims: seq<JokerReclaim>) returns (r: Option<Reclaiming>)
    ensures r == ReclaimAll(table, reclaims)
  {
    var s := Reclaiming(table, [], [], []);
    for i := 0 to |reclaims|
      invariant ReclaimAll(table, reclaims[..i]) == Some(s)
    {
      PrefixStep(reclaims, i);
      var next := ReclaimOne(s, reclaims[i]);
      if next.None? {
        ReclaimAllFails(table, reclaims, i);
        return None;
      }
      s := next.value;
    }
    assert reclaims[..|reclaims|] == reclaims;
    return Some(s);
  }

  method ShiftPending(deferred: seq<Deferred>, compositionIndex: int, insertIndex: int,
                      count: nat) returns (r: seq<Deferred>)
    ensures r == ShiftAll(deferred, compositionIndex, insertIndex, count)
  {
    r := deferred;
    for index := 0 to |deferred|
      invariant |r| == |deferred|
      invariant forall i :: 0 <= i < index ==> r[i] == ShiftDeferred(deferred[i], compositionIndex, insertIndex, count)
      invariant forall i :: index <= i < |r| ==> r[i] == deferred[i]
    {
      var pending := r[index];
      if pending.reclaim.compositionIndex == compositionIndex && insertIndex <= pending.jokerIndex {
        r := r[index := pending.(jokerIndex := pending.jokerIndex + count)];
      }
    }
  }

  /** The extended composition and what the added cards are worth on it. */
  method Extend(target: Comp, insertIndex: int, cards: seq<Card>) returns (extended: Option<Comp>, points: int)
    requires CompOk(target)
    ensures extended == WithInsertedCards(target, insertIndex, cards)
    ensures extended.Some? ==> points == CompPoints(extended.value) - CompPoints(target)
  {
    extended := InsertCards(target, insertIndex, cards);
    if extended.None? {
      return extended, 0;
    }
    InsertionAdds(target, insertIndex, cards);
    var newPoints := PointsOf(extended.value);
    var oldPoints := PointsOf(target);
    points := newPoints as int - oldPoints;
  }

  method AddOne(s: Adding, addition: Addition) returns (r: Option<Adding>)
    requires AllOk(s.table)
    ensures r == AddStep(s, addition)
  {
    hide WithInsertedCards, CompPoints;
    if |addition.cards| == 0 || addition.compositionIndex < 0 || addition.compositionIndex >= |s.table| {
      return None;
    }
    var target := s.table[addition.compositionIndex];
    var insertIndex := |target.cards|;
    if addition.insertIndex.Some? {
      insertIndex := addition.insertIndex.value;
    }
    var deferred := ShiftPending(s.deferred, addition.compositionIndex, insertIndex, |addition.cards|);
    var extended, points := Extend(target, insertIndex, addition.cards);
    if extended.None? {
      return None;
    }
    return Some(Adding(s.table[addition.compositionIndex := extended.value], deferred, s.played + addition.cards,
                       s.points + points));
  }

  lemma {:induction false} AddAllFails(s: Adding, additions: seq<Addition>, i: nat)
    requires i < |additions| && AddAll(s, additions[..i + 1]) == None
    ensures AddAll(s, additions) == None
    decreases |additions|
  {
    if i + 1 < |additions| {
      var front := additions[..|additions| - 1];
      assert front[..i + 1] == additions[..i + 1];
      AddAllFails(s, front, i);
    } else {
      assert additions[..i + 1] == additions;
    }
  }

  method AddCards(start: Adding, additions: seq<Addition>) returns (r: Option<Adding>)
    requires AllOk(start.table) && start.played == []
    ensures r == AddAll(start, additions)
  {
    var s := start;
    assert TableCards(start.table) == TableCards(start.table) + multiset(start.played);
    for i := 0 to |additions|
      invariant AddAll(start, additions[..i]) == Some(s) && AddsKeep(start.table, s)
    {
      PrefixStep(additions, i);
      var next := AddOne(s, additions[i]);
      if next.None? {
        AddAllFails(start, additions, i);
        return None;
      }
      AddStepKeeps(start.table, s, additions[i]);
      s := next.value;
    }
    assert additions[..|additions|] == additions;
    return Some(s);
  }

  lemma {:induction false} FinishAllFails(s: Finishing, deferred: seq<Deferred>, i: nat)
    requires i < |deferred| && FinishAll(s, deferred[..i + 1]) == None
    ensures FinishAll(s, deferred) == None
    decreases |deferred|
  {
    if i + 1 < |deferred| {
      var front := deferred[..|deferred| - 1];
      assert front[..i + 1] == deferred[..i + 1];
      FinishAllFails(s, front, i);
    } else {
      assert deferred[..i + 1] == deferred;
    }
  }

  method FinishOne(s: Finishing, pending: Deferred) returns (r: Option<Finishing>)
    requires 0 <= pending.reclaim.compositionIndex < |s.table|
    ensures r == FinishStep(s, pending)
  {
    var target := s.table[pending.reclaim.compositionIndex];
    var updated := Reclaim(target, pending.jokerIndex, pending.reclaim.replacement);
    if updated.None? {
      return None;
    }
    return Some(Finishing(s.table[pending.reclaim.compositionIndex := updated.value],
                          s.reclaimed + [target.cards[pending.jokerIndex]], s.played + [pending.reclaim.replacement]));
  }

  method FinishReclaims(start: Finishing, deferred: seq<Deferred>) returns (r: Option<Finishing>)
    requires InRange(deferred, |start.table|)
    ensures r == FinishAll(start, deferred)
  {
    var s := start;
    for i := 0 to |deferred|
      invariant FinishAll(start, deferred[..i]) == Some(s) && |s.table| == |start.table|
    {
      PrefixStep(deferred, i);
      var next := FinishOne(s, deferred[i]);
      if next.None? {
        FinishAllFails(start, deferred, i);
        return None;
      }
      s := next.value;
    }
    assert deferred[..|deferred|] == deferred;
    return Some(s);
  }

  /** Reclaims, additions and waiting reclaims. */
  method MoveOnTable(table: seq<Comp>, additions: seq<Addition>, reclaims: seq<JokerReclaim>) returns (r: Option<Moved>)
    requires AllOk(table)
    ensures r == TableMoves(table, additions, reclaims)
  {
    var reclaimed := ReclaimJokers(table, reclaims);
    if reclaimed.None? {
      return None;
    }
    ReclaimAllKeeps(table, reclaims);
    var added := AddCards(Adding(reclaimed.value.table, reclaimed.value.deferred, [], 0), additions);
    if added.None? {
      return None;
    }
    WaitingInRange(table, reclaims);
    StillInRange(Adding(reclaimed.value.table, reclaimed.value.deferred, [], 0), additions, |table|);
    var finished := FinishReclaims(Finishing(added.value.table, reclaimed.value.reclaimed, []), added.value.deferred);
    if finished.None? {
      return None;
    }
    return Some(Moved(finished.value.table, finished.value.reclaimed,
                      reclaimed.value.played + added.value.played + finished.value.played, added.value.points));
  }

  /** All four phases on the table. */
  method PlayOnTable(table: seq<Comp>, comps: seq<Comp>, additions: seq<Addition>, reclaims: seq<JokerReclaim>)
    returns (r: Option<TableOutcome>)
    requires AllOk(table) && AllOk(comps)
    ensures r == OnTable(table, comps, additions, reclaims)
  {
    hide LayComps, TableMoves, CompOk;
    var laid := LayCompositions(comps);
    if laid.None? {
      return None;
    }
    var moved := MoveOnTable(table, additions, reclaims);
    if moved.None? {
      return None;
    }
    return Some(TableOutcome(laid.value, moved.value.table, moved.value.reclaimed,
                             laid.value.played + moved.value.played, laid.value.points + moved.value.points));
  }

  /** A copy of the hand gives up the cards of each new composition in turn until one succeeds. */
  method HasOpeningCompositionFromHand(handCards: seq<Card>, comps: seq<Comp>) returns (found: bool)
    ensures found <==> OpensFromHand(handCards, comps)
  {
    var openingHand := new Hand(handCards);
    for i := 0 to |comps|
      invariant openingHand.cards == handCards
      invariant forall j :: 0 <= j < i ==> !(multiset(comps[j].cards) <= multiset(handCards))
    {
      var removed := openingHand.RemoveCards(comps[i].cards);
      if !removed {
        continue;
      }
      return true;
    }
    return false;
  }

  method ApplyTablePlayState(s: TableState, comps: seq<Comp>, additions: seq<Addition>, reclaims: seq<JokerReclaim>)
    returns (r: Result<TableState, PlayError>)
    requires AllOk(s.table) && AllOk(comps)
    ensures r == ApplyTablePlay(s, comps, additions, reclaims)
  {
    var outcome := PlayOnTable(s.table, comps, additions, reclaims);
    if outcome.None? {
      return Failure(InvalidComposition);
    }
    var o := outcome.value;
    if !s.hasOpened && |comps| == 0 {
      return Failure(InitialPlayRequiresOwnComp);
    }
    if !s.hasOpened {
      var found := HasOpeningCompositionFromHand(s.hand, o.laid.comps);
      if !found {
        return Failure(InitialPlayRequiresOwnComp);
      }
      if o.points < OPENING_POINTS {
        return Failure(InitialPointsNotMet);
      }
    }
    RemoveEachSubtracts(s.hand + o.reclaimed, o.played);
    var nextHand := new Hand(s.hand + o.reclaimed);
    var removed := nextHand.RemoveCards(o.played);
    if !removed {
      return Failure(CardsNotInHand);
    }
    if |nextHand.cards| == 0 {
      return Failure(MustKeepDiscardCard);
    }
    return Success(TableState(nextHand.cards, o.table + o.laid.comps, true));
  }
}
