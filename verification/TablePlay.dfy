/** applyTablePlayState of state.go: the executor of a table play, phase by phase. */
module TablePlay {
  import opened Cards
  import opened RunSpec
  import opened RunLayout
  import opened Compositions
  import opened CompositionObjects
  import opened Piles

  datatype Addition = Addition(compositionIndex: int, insertIndex: Option<int>, cards: seq<Card>)

  datatype JokerReclaim = JokerReclaim(compositionIndex: int, jokerIndex: int, replacement: Card)

  datatype PlayError =
    | InvalidComposition
    | InitialPlayRequiresOwnComp
    | InitialPointsNotMet
    | CardsNotInHand
    | MustKeepDiscardCard

  /** The part of the game a table play reads and replaces. */
  datatype TableState = TableState(hand: seq<Card>, table: seq<Comp>, hasOpened: bool)

  /** A set reclaim that waits until the joker's meaning is settled. */
  datatype Deferred = Deferred(reclaim: JokerReclaim, jokerIndex: int)

  const OPENING_POINTS := 40

  // ---------------------------------------------------------------- new compositions

  datatype Laid = Laid(comps: seq<Comp>, played: seq<Card>, points: int)

  /** A new composition is laid only if valid and, for a run, recognised in one of its two directions. */
  ghost function LaidComp(c: Comp): Option<Comp> {
    if !ValidCards(c.variant, c.cards) then None
    else if c.variant == Set then Some(c)
    else if !CardsAreOrdered(c.cards) && !ReverseOrdered(c.cards) then None
    else Some(c.(cards := Normalized(c.cards)))
  }

  lemma LaidCompOk(c: Comp)
    requires CompOk(c)
    ensures var d := LaidComp(c);
            d.Some? ==> CompOk(d.value) && d.value.variant == c.variant && multiset(d.value.cards) == multiset(c.cards)
  {
    if c.variant == Run && IsRun(c.cards) {
      NormalizedKeepsCards(c.cards);
      ReorderedOk(c, Normalized(c.cards));
    }
  }

  ghost function CompPoints(c: Comp): int {
    if ValidCards(c.variant, c.cards) then Points(c.variant, c.cards) else 0
  }

  ghost function LayComps(comps: seq<Comp>): Option<Laid> {
    if comps == [] then Some(Laid([], [], 0))
    else
      var k := |comps| - 1;
      var s, c := LayComps(comps[..k]), LaidComp(comps[k]);
      if s.None? || c.None? then None
      else Some(Laid(s.value.comps + [c.value], s.value.played + c.value.cards, s.value.points + CompPoints(c.value)))
  }

  // ---------------------------------------------------------------- reclaims

  datatype Reclaiming = Reclaiming(table: seq<Comp>, deferred: seq<Deferred>, reclaimed: seq<Card>, played: seq<Card>)

  ghost function ReclaimStep(s: Reclaiming, r: JokerReclaim): Option<Reclaiming> {
    if r.compositionIndex < 0 || r.compositionIndex >= |s.table| then None
    else
      var target := s.table[r.compositionIndex];
      var updated := ReclaimJoker(target, r.jokerIndex, r.replacement);
      if updated.None? then
        if IsAmbiguousSetReclaim(target, r.jokerIndex, r.replacement)
        then Some(s.(deferred := s.deferred + [Deferred(r, r.jokerIndex)])) else None
      else
        Some(Reclaiming(s.table[r.compositionIndex := updated.value], s.deferred,
                        s.reclaimed + [target.cards[r.jokerIndex]], s.played + [r.replacement]))
  }

  ghost function ReclaimAll(table: seq<Comp>, reclaims: seq<JokerReclaim>): Option<Reclaiming> {
    if reclaims == [] then Some(Reclaiming(table, [], [], []))
    else
      var s := ReclaimAll(table, reclaims[..|reclaims| - 1]);
      if s.None? then None else ReclaimStep(s.value, reclaims[|reclaims| - 1])
  }

  // ---------------------------------------------------------------- additions

  datatype Adding = Adding(table: seq<Comp>, deferred: seq<Deferred>, played: seq<Card>, points: int)

  /** Cards inserted at or before a waiting joker push it along. */
  function ShiftDeferred(d: Deferred, compositionIndex: int, insertIndex: int, count: nat): Deferred {
    if d.reclaim.compositionIndex == compositionIndex && insertIndex <= d.jokerIndex
    then d.(jokerIndex := d.jokerIndex + count) else d
  }

  function ShiftAll(ds: seq<Deferred>, compositionIndex: int, insertIndex: int, count: nat): (r: seq<Deferred>)
    ensures |r| == |ds|
    ensures forall i :: 0 <= i < |ds| ==> r[i] == ShiftDeferred(ds[i], compositionIndex, insertIndex, count)
  {
    seq(|ds|, i requires 0 <= i < |ds| => ShiftDeferred(ds[i], compositionIndex, insertIndex, count))
  }

  ghost function AddStep(s: Adding, a: Addition): Option<Adding> {
    if a.cards == [] || a.compositionIndex < 0 || a.compositionIndex >= |s.table| then None
    else
      var target := s.table[a.compositionIndex];
      var insertIndex := if a.insertIndex.Some? then a.insertIndex.value else |target.cards|;
      var extended := WithInsertedCards(target, insertIndex, a.cards);
      if extended.None? then None
      else
        Some(Adding(s.table[a.compositionIndex := extended.value],
                    ShiftAll(s.deferred, a.compositionIndex, insertIndex, |a.cards|),
                    s.played + a.cards, s.points + CompPoints(extended.value) - CompPoints(target)))
  }

  ghost function AddAll(s: Adding, additions: seq<Addition>): Option<Adding> {
    if additions == [] then Some(s)
    else
      var r := AddAll(s, additions[..|additions| - 1]);
      if r.None? then None else AddStep(r.value, additions[|additions| - 1])
  }

  // ---------------------------------------------------------------- waiting reclaims

  datatype Finishing = Finishing(table: seq<Comp>, reclaimed: seq<Card>, played: seq<Card>)

  ghost function FinishStep(s: Finishing, d: Deferred): Option<Finishing> {
    if d.reclaim.compositionIndex < 0 || d.reclaim.compositionIndex >= |s.table| then None
    else
      var target := s.table[d.reclaim.compositionIndex];
      var updated := ReclaimJoker(target, d.jokerIndex, d.reclaim.replacement);
      if updated.None? then None
      else
        Some(Finishing(s.table[d.reclaim.compositionIndex := updated.value],
                       s.reclaimed + [target.cards[d.jokerIndex]], s.played + [d.reclaim.replacement]))
  }

  ghost function FinishAll(s: Finishing, deferred: seq<Deferred>): Option<Finishing> {
    if deferred == [] then Some(s)
    else
      var r := FinishAll(s, deferred[..|deferred| - 1]);
      if r.None? then None else FinishStep(r.value, deferred[|deferred| - 1])
  }

  // ---------------------------------------------------------------- the whole play

  /** Everything that happens on the table: what was played, what came back, what it scored. */
  datatype TableOutcome = TableOutcome(laid: Laid, table: seq<Comp>, reclaimed: seq<Card>, played: seq<Card>,
                                       points: int)

  /** Reclaims, additions and waiting reclaims, on the compositions already there. */
  datatype Moved = Moved(table: seq<Comp>, reclaimed: seq<Card>, played: seq<Card>, points: int)

  ghost function FinishMoves(r: Reclaiming, a: Adding): Option<Moved> {
    var f := FinishAll(Finishing(a.table, r.reclaimed, []), a.deferred);
    if f.None? then None
    else Some(Moved(f.value.table, f.value.reclaimed, r.played + a.played + f.value.played, a.points))
  }

  ghost function TableMoves(table: seq<Comp>, additions: seq<Addition>, reclaims: seq<JokerReclaim>): Option<Moved> {
    var r := ReclaimAll(table, reclaims);
    if r.None? then None
    else
      var a := AddAll(Adding(r.value.table, r.value.deferred, [], 0), additions);
      if a.None? then None else FinishMoves(r.value, a.value)
  }

  ghost function OnTable(table: seq<Comp>, comps: seq<Comp>, additions: seq<Addition>,
                         reclaims: seq<JokerReclaim>): Option<TableOutcome> {
    var laid, moved := LayComps(comps), TableMoves(table, additions, reclaims);
    if laid.None? || moved.None? then None
    else Some(TableOutcome(laid.value, moved.value.table, moved.value.reclaimed,
                           laid.value.played + moved.value.played, laid.value.points + moved.value.points))
  }

  /** Some new composition consists of cards held before the play. */
  ghost predicate OpensFromHand(hand: seq<Card>, comps: seq<Comp>) {
    exists i :: 0 <= i < |comps| && multiset(comps[i].cards) <= multiset(hand)
  }

  ghost function ApplyTablePlay(s: TableState, comps: seq<Comp>, additions: seq<Addition>, reclaims: seq<JokerReclaim>)
    : Result<TableState, PlayError>
  {
    var t := OnTable(s.table, comps, additions, reclaims);
    if t.None? then Failure(InvalidComposition)
    else if !s.hasOpened && comps == [] then Failure(InitialPlayRequiresOwnComp)
    else if !s.hasOpened && !OpensFromHand(s.hand, t.value.laid.comps) then Failure(InitialPlayRequiresOwnComp)
    else if !s.hasOpened && t.value.points < OPENING_POINTS then Failure(InitialPointsNotMet)
    else
      var next := RemoveEach(s.hand + t.value.reclaimed, t.value.played);
      if next.None? then Failure(CardsNotInHand)
      else if next.value == [] then Failure(MustKeepDiscardCard)
      else Success(TableState(next.value, t.value.table + t.value.laid.comps, true))
  }

  // ---------------------------------------------------------------- what the phases keep

  ghost predicate AllOk(comps: seq<Comp>) {
    forall i :: 0 <= i < |comps| ==> CompOk(comps[i])
  }

  ghost function TableCards(table: seq<Comp>): multiset<Card> {
    if table == [] then multiset{} else TableCards(table[..|table| - 1]) + multiset(table[|table| - 1].cards)
  }

  lemma {:induction false} TableCardsUpdate(table: seq<Comp>, i: nat, c: Comp)
    requires i < |table|
    ensures multiset(table[i].cards) <= TableCards(table)
    ensures TableCards(table[i := c]) == TableCards(table) - multiset(table[i].cards) + multiset(c.cards)
  {
    var k := |table| - 1;
    if i == k {
      assert table[i := c][..k] == table[..k];
    } else {
      TableCardsUpdate(table[..k], i, c);
      assert table[i := c][..k] == table[..k][i := c];
      ExchangePlus(TableCards(table[..k]), multiset(table[i].cards), multiset(c.cards), multiset(table[k].cards));
    }
  }

  lemma ExchangePlus(m: multiset<Card>, x: multiset<Card>, y: multiset<Card>, z: multiset<Card>)
    requires x <= m
    ensures x <= m + z && m - x + y + z == m + z - x + y
  {
  }

  lemma ExchangeJoker(m: multiset<Card>, x: multiset<Card>, joker: Card, replacement: Card)
    requires x <= m && joker in x
    ensures m - x + (x - multiset{joker} + multiset{replacement}) + multiset{joker} == m + multiset{replacement}
  {
  }

  lemma ExchangeMore(m: multiset<Card>, x: multiset<Card>, y: multiset<Card>)
    requires x <= m
    ensures m - x + (x + y) == m + y
  {
  }

  lemma {:induction false} TableCardsAppend(table: seq<Comp>, more: seq<Comp>)
    ensures TableCards(table + more) == TableCards(table) + TableCards(more)
  {
    if more == [] {
      assert table + more == table;
    } else {
      var k := |more| - 1;
      TableCardsAppend(table, more[..k]);
      var all := table + more;
      assert all[..|all| - 1] == table + more[..k] && all[|all| - 1] == more[k];
      calc {
        TableCards(all);
        TableCards(table + more[..k]) + multiset(more[k].cards);
        TableCards(table) + TableCards(more[..k]) + multiset(more[k].cards);
        TableCards(table) + TableCards(more);
      }
    }
  }

  lemma {:induction false} LayCompsKeeps(comps: seq<Comp>)
    requires AllOk(comps)
    ensures var r := LayComps(comps);
            r.Some? ==>
              AllOk(r.value.comps) && |r.value.comps| == |comps| &&
              multiset(r.value.played) == TableCards(r.value.comps)
  {
    if comps != [] {
      var k := |comps| - 1;
      LayCompsKeeps(comps[..k]);
      LaidCompOk(comps[k]);
      var s, c := LayComps(comps[..k]), LaidComp(comps[k]);
      if s.Some? && c.Some? {
        assert (s.value.comps + [c.value])[..k] == s.value.comps;
      }
    }
  }

  /** Cards gone into the table minus jokers taken from it account for the change. */
  ghost predicate Balanced(before: multiset<Card>, after: multiset<Card>, played: seq<Card>, reclaimed: seq<Card>) {
    after + multiset(reclaimed) == before + multiset(played)
  }

  ghost predicate AllJokerCards(cards: seq<Card>) {
    forall i :: 0 <= i < |cards| ==> cards[i].Joker?
  }

  lemma ReplaceBalances(table: seq<Comp>, i: nat, d: Comp, joker: Card, replacement: Card)
    requires i < |table| && joker in multiset(table[i].cards)
    requires multiset(d.cards) == multiset(table[i].cards) - multiset{joker} + multiset{replacement}
    ensures TableCards(table[i := d]) + multiset{joker} == TableCards(table) + multiset{replacement}
  {
    TableCardsUpdate(table, i, d);
    ExchangeJoker(TableCards(table), multiset(table[i].cards), joker, replacement);
  }

  lemma BalanceSnoc(before: multiset<Card>, mid: multiset<Card>, after: multiset<Card>, played: seq<Card>,
                    reclaimed: seq<Card>,
                    joker: Card, replacement: Card)
    requires Balanced(before, mid, played, reclaimed) && after + multiset{joker} == mid + multiset{replacement}
    ensures Balanced(before, after, played + [replacement], reclaimed + [joker])
  {
    calc {
      after + multiset(reclaimed + [joker]);
      after + multiset{joker} + multiset(reclaimed);
      mid + multiset{replacement} + multiset(reclaimed);
      mid + multiset(reclaimed) + multiset{replacement};
      before + multiset(played) + multiset{replacement};
      before + multiset(played + [replacement]);
    }
  }

  /** The invariant of the two reclaim phases. */
  ghost predicate ReclaimsKeep(table: seq<Comp>, after: seq<Comp>, played: seq<Card>, reclaimed: seq<Card>) {
    && AllOk(after) && |after| == |table|
    && AllJokerCards(reclaimed) && |played| == |reclaimed|
    && Balanced(TableCards(table), TableCards(after), played, reclaimed)
  }

  lemma OneReclaimKeeps(table: seq<Comp>, mid: seq<Comp>, played: seq<Card>, reclaimed: seq<Card>, i: nat,
                        jokerIndex: int, replacement: Card)
    requires ReclaimsKeep(table, mid, played, reclaimed) && i < |mid|
    ensures var u := ReclaimJoker(mid[i], jokerIndex, replacement);
            u.Some? ==> 0 <= jokerIndex < |mid[i].cards| && mid[i].cards[jokerIndex].Joker? &&
                        ReclaimsKeep(table, mid[i := u.value], played + [replacement],
                                     reclaimed + [mid[i].cards[jokerIndex]])
  {
    var u := ReclaimJoker(mid[i], jokerIndex, replacement);
    ReclaimSucceeds(mid[i], jokerIndex, replacement);
    if u.Some? {
      var joker := mid[i].cards[jokerIndex];
      assert joker in mid[i].cards;
      ReplaceBalances(mid, i, u.value, joker, replacement);
      BalanceSnoc(TableCards(table), TableCards(mid), TableCards(mid[i := u.value]), played, reclaimed, joker,
                  replacement);
    }
  }

  lemma {:induction false} ReclaimAllKeeps(table: seq<Comp>, reclaims: seq<JokerReclaim>)
    requires AllOk(table)
    ensures var r := ReclaimAll(table, reclaims);
            r.Some? ==> ReclaimsKeep(table, r.value.table, r.value.played, r.value.reclaimed) &&
                        |r.value.deferred| + |r.value.reclaimed| == |reclaims|
  {
    if reclaims != [] {
      var front, last := reclaims[..|reclaims| - 1], reclaims[|reclaims| - 1];
      ReclaimAllKeeps(table, front);
      var s := ReclaimAll(table, front);
      if s.Some? && 0 <= last.compositionIndex < |s.value.table| {
        OneReclaimKeeps(table, s.value.table, s.value.played, s.value.reclaimed, last.compositionIndex,
                        last.jokerIndex, last.replacement);
      }
    }
  }

  lemma {:induction false} FinishAllKeeps(table: seq<Comp>, s: Finishing, deferred: seq<Deferred>)
    requires ReclaimsKeep(table, s.table, s.played, s.reclaimed)
    ensures var r := FinishAll(s, deferred);
            r.Some? ==> ReclaimsKeep(table, r.value.table, r.value.played, r.value.reclaimed) &&
                        |r.value.reclaimed| == |s.reclaimed| + |deferred|
  {
    if deferred != [] {
      var front, last := deferred[..|deferred| - 1], deferred[|deferred| - 1];
      FinishAllKeeps(table, s, front);
      var r := FinishAll(s, front);
      var i := last.reclaim.compositionIndex;
      if r.Some? && 0 <= i < |r.value.table| {
        OneReclaimKeeps(table, r.value.table, r.value.played, r.value.reclaimed, i, last.jokerIndex,
                        last.reclaim.replacement);
      }
    }
  }

  /** Waiting reclaims point at compositions of a table of `n`. */
  predicate InRange(deferred: seq<Deferred>, n: nat) {
    forall i :: 0 <= i < |deferred| ==> 0 <= deferred[i].reclaim.compositionIndex < n
  }

  lemma {:induction false} WaitingInRange(table: seq<Comp>, reclaims: seq<JokerReclaim>)
    ensures var r := ReclaimAll(table, reclaims);
            r.Some? ==> InRange(r.value.deferred, |table|) && |r.value.table| == |table|
  {
    hide ReclaimJoker;
    if reclaims != [] {
      WaitingInRange(table, reclaims[..|reclaims| - 1]);
    }
  }

  lemma {:induction false} StillInRange(s: Adding, additions: seq<Addition>, n: nat)
    requires InRange(s.deferred, n)
    ensures var r := AddAll(s, additions); r.Some? ==> InRange(r.value.deferred, n) && |r.value.table| == |s.table|
  {
    hide WithInsertedCards, CompPoints;
    if additions != [] {
      StillInRange(s, additions[..|additions| - 1], n);
    }
  }

  ghost predicate AddsKeep(table: seq<Comp>, s: Adding) {
    AllOk(s.table) && |s.table| == |table| && TableCards(s.table) == TableCards(table) + multiset(s.played)
  }

  lemma {:induction false} AddAllKeeps(table: seq<Comp>, s: Adding, additions: seq<Addition>)
    requires AddsKeep(table, s)
    ensures var r := AddAll(s, additions); r.Some? ==> AddsKeep(table, r.value) && |r.value.deferred| == |s.deferred|
  {
    if additions != [] {
      var front, a := additions[..|additions| - 1], additions[|additions| - 1];
      AddAllKeeps(table, s, front);
      var r := AddAll(s, front);
      if r.Some? {
        AddStepKeeps(table, r.value, a);
      }
    }
  }

  lemma PlayedMore(t: multiset<Card>, played: seq<Card>, more: seq<Card>)
    ensures t + multiset(played) + multiset(more) == t + multiset(played + more)
  {
  }

  lemma AddStepKeeps(table: seq<Comp>, s: Adding, a: Addition)
    requires AddsKeep(table, s)
    ensures var r := AddStep(s, a); r.Some? ==> AddsKeep(table, r.value) && |r.value.deferred| == |s.deferred|
  {
    if AddStep(s, a).Some? {
      var target := s.table[a.compositionIndex];
      var insertIndex := if a.insertIndex.Some? then a.insertIndex.value else |target.cards|;
      InsertionAdds(target, insertIndex, a.cards);
      var extended := WithInsertedCards(target, insertIndex, a.cards).value;
      TableCardsUpdate(s.table, a.compositionIndex, extended);
      ExchangeMore(TableCards(s.table), multiset(target.cards), multiset(a.cards));
      PlayedMore(TableCards(table), s.played, a.cards);
    }
  }

  /** A play moves cards between hand and table and neither makes nor loses any. */
  lemma PlayConservesCards(s: TableState, comps: seq<Comp>, additions: seq<Addition>, reclaims: seq<JokerReclaim>)
    requires AllOk(s.table) && AllOk(comps)
    ensures var r := ApplyTablePlay(s, comps, additions, reclaims);
            r.Success? ==>
              AllOk(r.value.table) && r.value.hand != [] && r.value.hasOpened &&
              multiset(r.value.hand) + TableCards(r.value.table) == multiset(s.hand) + TableCards(s.table)
  {
    var r := ApplyTablePlay(s, comps, additions, reclaims);
    if r.Success? {
      OnTableKeeps(s.table, comps, additions, reclaims);
      OutcomeBalances(s, OnTable(s.table, comps, additions, reclaims).value, r.value.hand);
    }
  }

  lemma OutcomeBalances(s: TableState, o: TableOutcome, next: seq<Card>)
    requires OutcomeKeeps(s.table, o) && RemoveEach(s.hand + o.reclaimed, o.played) == Some(next)
    ensures AllOk(o.table + o.laid.comps)
    ensures multiset(next) + TableCards(o.table + o.laid.comps) == multiset(s.hand) + TableCards(s.table)
  {
    RemoveEachSubtracts(s.hand + o.reclaimed, o.played);
    MoveCards(multiset(s.hand), multiset(o.reclaimed), multiset(o.played), TableCards(s.table),
              TableCards(o.table + o.laid.comps), multiset(next));
  }

  lemma MoveCards(H: multiset<Card>, R: multiset<Card>, P: multiset<Card>, T: multiset<Card>, T': multiset<Card>,
                  next: multiset<Card>)
    requires P <= H + R && next == H + R - P && T' + R == T + P
    ensures next + T' == H + T
  {
    forall c: Card
      ensures (next + T')[c] == (H + T)[c]
    {
      assert (T' + R)[c] == (T + P)[c];
    }
  }

  ghost predicate OutcomeKeeps(table: seq<Comp>, o: TableOutcome) {
    && AllOk(o.table) && AllOk(o.laid.comps) && AllJokerCards(o.reclaimed)
    && TableCards(o.table + o.laid.comps) + multiset(o.reclaimed) == TableCards(table) + multiset(o.played)
  }

  ghost predicate MovesKeep(table: seq<Comp>, m: Moved) {
    && AllOk(m.table) && |m.table| == |table| && AllJokerCards(m.reclaimed)
    && TableCards(m.table) + multiset(m.reclaimed) == TableCards(table) + multiset(m.played)
  }

  lemma FinishMovesKeeps(table: seq<Comp>, r: Reclaiming, a: Adding)
    requires ReclaimsKeep(table, r.table, r.played, r.reclaimed) && AddsKeep(r.table, a)
    ensures var m := FinishMoves(r, a);
            m.Some? ==> MovesKeep(table, m.value) && |m.value.reclaimed| == |r.reclaimed| + |a.deferred|
  {
    hide FinishAll, TableCards, CompOk, AllOk, AllJokerCards, Balanced;
    FinishFromHere(a.table, r.reclaimed, a.deferred);
    var f := FinishAll(Finishing(a.table, r.reclaimed, []), a.deferred);
    if f.Some? {
      PhasesBalance(TableCards(table), TableCards(r.table), TableCards(a.table), TableCards(f.value.table),
                    r.played, a.played, f.value.played, r.reclaimed, f.value.reclaimed);
    }
  }

  lemma TableMovesKeeps(table: seq<Comp>, additions: seq<Addition>, reclaims: seq<JokerReclaim>)
    requires AllOk(table)
    ensures var m := TableMoves(table, additions, reclaims);
            m.Some? ==> MovesKeep(table, m.value) && |m.value.reclaimed| == |reclaims|
  {
    var r := ReclaimAll(table, reclaims);
    if r.Some? {
      ReclaimAllKeeps(table, reclaims);
      var start := Adding(r.value.table, r.value.deferred, [], 0);
      AddAllKeeps(r.value.table, start, additions);
      var a := AddAll(start, additions);
      if a.Some? {
        FinishMovesKeeps(table, r.value, a.value);
      }
    }
  }

  lemma OnTableKeeps(table: seq<Comp>, comps: seq<Comp>, additions: seq<Addition>, reclaims: seq<JokerReclaim>)
    requires AllOk(table) && AllOk(comps)
    ensures var t := OnTable(table, comps, additions, reclaims);
            t.Some? ==> OutcomeKeeps(table, t.value) && |t.value.reclaimed| == |reclaims|
  {
    var laid, moved := LayComps(comps), TableMoves(table, additions, reclaims);
    if laid.Some? && moved.Some? {
      LayCompsKeeps(comps);
      TableMovesKeeps(table, additions, reclaims);
      TableCardsAppend(moved.value.table, laid.value.comps);
      LaidOnTop(TableCards(table), TableCards(moved.value.table), TableCards(laid.value.comps),
                laid.value.played, moved.value.played, multiset(moved.value.reclaimed));
    }
  }

  lemma LaidOnTop(t: multiset<Card>, tm: multiset<Card>, tl: multiset<Card>, pl: seq<Card>, pm: seq<Card>,
                  r: multiset<Card>)
    requires tl == multiset(pl) && tm + r == t + multiset(pm)
    ensures tm + tl + r == t + multiset(pl + pm)
  {
    calc {
      tm + tl + r;
      tm + r + tl;
      t + multiset(pm) + multiset(pl);
      t + multiset(pl + pm);
    }
  }

  /** The waiting reclaims, with the jokers reclaimed before them put aside. */
  lemma {:induction false} FinishFromHere(table: seq<Comp>, reclaimed: seq<Card>, deferred: seq<Deferred>)
    requires AllOk(table) && AllJokerCards(reclaimed)
    ensures var f := FinishAll(Finishing(table, reclaimed, []), deferred);
            f.Some? ==> AllOk(f.value.table) && |f.value.table| == |table| && AllJokerCards(f.value.reclaimed) &&
                        |f.value.reclaimed| == |reclaimed| + |deferred| &&
                        TableCards(f.value.table) + multiset(f.value.reclaimed) ==
                        TableCards(table) + multiset(f.value.played) + multiset(reclaimed)
  {
    FinishSplits(Finishing(table, [], []), reclaimed, deferred);
    assert Balanced(TableCards(table), TableCards(table), [], []);
    FinishAllKeeps(table, Finishing(table, [], []), deferred);
    assert reclaimed + [] == reclaimed;
    var g := FinishAll(Finishing(table, [], []), deferred);
    if g.Some? {
      assert multiset(reclaimed + g.value.reclaimed) == multiset(reclaimed) + multiset(g.value.reclaimed);
    }
  }

  lemma FinishStepSplits(s: Finishing, before: seq<Card>, d: Deferred)
    ensures var g := FinishStep(s, d);
            FinishStep(s.(reclaimed := before + s.reclaimed), d) ==
            if g.None? then None else Some(g.value.(reclaimed := before + g.value.reclaimed))
  {
    var g := FinishStep(s, d);
    if g.Some? {
      var joker := s.table[d.reclaim.compositionIndex].cards[d.jokerIndex];
      assert before + (s.reclaimed + [joker]) == before + s.reclaimed + [joker];
    }
  }

  lemma {:induction false} FinishSplits(s: Finishing, before: seq<Card>, deferred: seq<Deferred>)
    ensures var g := FinishAll(s, deferred);
            FinishAll(s.(reclaimed := before + s.reclaimed), deferred) ==
            if g.None? then None else Some(g.value.(reclaimed := before + g.value.reclaimed))
  {
    if deferred != [] {
      var front, d := deferred[..|deferred| - 1], deferred[|deferred| - 1];
      FinishSplits(s, before, front);
      var g := FinishAll(s, front);
      if g.Some? {
        FinishStepSplits(g.value, before, d);
      }
    }
  }

  lemma PhasesBalance(t: multiset<Card>, tr: multiset<Card>, ta: multiset<Card>, tf: multiset<Card>,
                      pr: seq<Card>, pa: seq<Card>, pf: seq<Card>, rr: seq<Card>, rf: seq<Card>)
    requires Balanced(t, tr, pr, rr) && ta == tr + multiset(pa)
    requires tf + multiset(rf) == ta + multiset(pf) + multiset(rr)
    ensures tf + multiset(rf) == t + multiset(pr + pa + pf)
  {
    var left, right := tf + multiset(rf), t + multiset(pr + pa + pf);
    forall c: Card
      ensures left[c] == right[c]
    {
      assert (tr + multiset(rr))[c] == (t + multiset(pr))[c];
      assert (tf + multiset(rf))[c] == (ta + multiset(pf) + multiset(rr))[c];
    }
  }
}
