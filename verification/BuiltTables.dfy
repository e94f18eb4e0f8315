/** Runs whose submitted compositions come from the constructors: every composition on the table is as the
    constructor left it, and which restarts bring back the same game. */
module BuiltTables {
  import opened Cards
  import opened RunSpec
  import opened RunLayout
  import opened Compositions
  import opened Relaying
  import opened LayoutStability
  import opened TablePlay
  import opened Rotation
  import opened RoundScoring
  import opened GameModel
  import opened GameInvariants
  import opened Persistence
  import opened GameRuns
  import opened RelaidTables
  import CompositionObjects
  import D = Dealing

  // ---------------------------------------------------------------- one composition

  /** The constructor returned it, and nothing has touched it since. */
  ghost predicate Built(c: Comp) {
    exists cards :: MakeComp(cards, c.variant, false) == Some(c)
  }

  lemma ConstructorBuilds(cards: seq<Card>, variant: Variant, requireOrderedRun: bool)
    ensures var c := MakeComp(cards, variant, requireOrderedRun); c.Some? ==> Built(c.value)
  {
    var c := MakeComp(cards, variant, requireOrderedRun);
    if c.Some? {
      assert MakeComp(cards, c.value.variant, false) == c;
    }
  }

  /** The jokers of a built run stand for what its layout says, and it is recognised forwards if at all. */
  lemma BuiltRun(c: Comp)
    requires Built(c) && c.variant == Run
    ensures IsRun(c.cards) && c.representations == AssignedJokers(Run, c.cards)
    ensures ReverseOrdered(c.cards) ==> CardsAreOrdered(c.cards)
  {
    var cards :| MakeComp(cards, c.variant, false) == Some(c);
    NormalizedFacesForward(cards);
  }

  /** Laying a built composition on the table leaves it as it is. */
  lemma LaidAsBuilt(c: Comp)
    requires Built(c)
    ensures LaidComp(c).Some? ==> LaidComp(c) == Some(c)
  {
    if LaidComp(c).Some? && c.variant == Run {
      hide Built, CardsAreOrdered, ReverseOrdered, Normalized, AssignedJokers;
      BuiltRun(c);
      OrderedIsUnchanged(c.cards);
    }
  }

  lemma BuiltIsOk(c: Comp)
    requires Built(c)
    ensures CompOk(c)
  {
    var cards :| MakeComp(cards, c.variant, false) == Some(c);
    MakeCompOk(cards, c.variant, false);
  }

  /** Sets, and runs whose layout lasts. */
  ghost predicate KeepsLayout(c: Comp) {
    c.variant == Set || |c.cards| > 14 || LayoutLasts(c.cards)
  }

  /** Building a composition once more gives the same one exactly when it is a set or the ranks of the run,
      by their differences and sums, leave its layout alone. */
  lemma RemadeSameIff(c: Comp)
    requires Built(c)
    ensures CompOk(c) && (Remade(c) == c <==> KeepsLayout(c))
  {
    hide LayoutLasts, Normalized;
    BuiltIsOk(c);
    var cards :| MakeComp(cards, c.variant, false) == Some(c);
    if c.variant == Run {
      LayoutLastsIff(cards);
    }
  }

  /** The scan for a placement stops at it or at a tie before it. */
  lemma {:induction false} ScanForMember(cards: seq<Card>, list: seq<Candidate>, i: nat)
    requires i < |list| && list[i].ordered == cards
    ensures !ScanList(cards, list).Running?
    decreases |list|
  {
    if i < |list| - 1 {
      ScanForMember(cards, list[..|list| - 1], i);
    }
  }

  /** The layout chosen for a run is recognised, or ties. */
  lemma LayoutFoundOrTied(cards: seq<Card>)
    requires IsRun(cards) && BestRunOrder(cards).Some?
    ensures var ordered := BestRunOrder(cards).value.ordered;
            IsRun(ordered) && (CardsAreOrdered(ordered) || BestRunOrder(ordered).None?)
  {
    var ordered := BestRunOrder(cards).value.ordered;
    BestRunOrderLaysOut(cards);
    SameRun(cards, ordered);
    if JokerCount(cards) != |cards| {
      var list := Candidates(multiset(cards), SuitOf(multiset(cards)), |cards|);
      ScanPicks(cards, list);
      var c :| c in list && c.ordered == ordered;
      var i :| 0 <= i < |list| && list[i] == c;
      ScanForMember(ordered, list, i);
    }
  }

  /** A built run that is not recognised offers no joker to reclaim. */
  lemma UnrecognisedOffersNothing(c: Comp)
    requires Built(c) && c.variant == Run
    ensures IsRun(c.cards) && (CardsAreOrdered(c.cards) || c.representations == map[])
  {
    BuiltRun(c);
    var cards :| MakeComp(cards, c.variant, false) == Some(c);
    ReversedRun(cards);
    hide Built, IsRun;
    if BestRunOrder(cards).Some? {
      LayoutFoundOrTied(cards);
    } else if BestRunOrder(Reversed(cards)).Some? {
      LayoutFoundOrTied(Reversed(cards));
    }
  }

  /** Building once more lays out again only what offered no joker. */
  lemma RemadeQuietly(c: Comp)
    requires Built(c)
    ensures CompOk(c) && QuietlyRelaid(c, Remade(c))
  {
    hide Normalized, AssignedJokers;
    BuiltIsOk(c);
    RemadeOk(c);
    if c.variant == Run {
      UnrecognisedOffersNothing(c);
      BuiltRun(c);
      if CardsAreOrdered(c.cards) {
        RecognisedKeepsLayout(c);
      }
    }
  }

  // ---------------------------------------------------------------- a table play

  ghost predicate AllBuilt(table: seq<Comp>) {
    forall i :: 0 <= i < |table| ==> Built(table[i])
  }

  lemma AllBuiltOk(table: seq<Comp>)
    requires AllBuilt(table)
    ensures AllOk(table)
  {
    forall i | 0 <= i < |table|
      ensures CompOk(table[i])
    {
      BuiltIsOk(table[i]);
    }
  }

  lemma {:induction false} LaidBuilt(comps: seq<Comp>)
    requires AllBuilt(comps)
    ensures LayComps(comps).Some? ==> LayComps(comps).value.comps == comps
  {
    hide Built, LaidComp, CompPoints;
    if comps != [] {
      var k := |comps| - 1;
      LaidBuilt(comps[..k]);
      LaidAsBuilt(comps[k]);
      assert comps == comps[..k] + [comps[k]];
    }
  }

  lemma ReclaimBuilds(c: Comp, index: int, replacement: Card)
    ensures ReclaimJoker(c, index, replacement).Some? ==> Built(ReclaimJoker(c, index, replacement).value)
  {
    hide Built, MakeComp;
    if CanReclaimJoker(c, index, replacement) {
      ConstructorBuilds(c.cards[index := replacement], c.variant, false);
    }
  }

  lemma InsertionBuilds(c: Comp, index: int, cards: seq<Card>)
    ensures WithInsertedCards(c, index, cards).Some? ==> Built(WithInsertedCards(c, index, cards).value)
  {
    hide Built, MakeComp;
    if 0 <= index <= |c.cards| {
      ConstructorBuilds(Inserted(c.cards, index, cards), c.variant, false);
    }
  }

  lemma {:induction false} ReclaimsBuild(table: seq<Comp>, reclaims: seq<JokerReclaim>)
    requires AllBuilt(table)
    ensures ReclaimAll(table, reclaims).Some? ==> AllBuilt(ReclaimAll(table, reclaims).value.table)
  {
    hide Built, ReclaimJoker, IsAmbiguousSetReclaim;
    if reclaims != [] {
      var front, r := reclaims[..|reclaims| - 1], reclaims[|reclaims| - 1];
      ReclaimsBuild(table, front);
      var s := ReclaimAll(table, front);
      if s.Some? && 0 <= r.compositionIndex < |s.value.table| {
        ReclaimBuilds(s.value.table[r.compositionIndex], r.jokerIndex, r.replacement);
      }
    }
  }

  lemma {:induction false} AdditionsBuild(s: Adding, additions: seq<Addition>)
    requires AllBuilt(s.table)
    ensures AddAll(s, additions).Some? ==> AllBuilt(AddAll(s, additions).value.table)
  {
    hide Built, WithInsertedCards, CompPoints;
    if additions != [] {
      var front, a := additions[..|additions| - 1], additions[|additions| - 1];
      AdditionsBuild(s, front);
      var r := AddAll(s, front);
      if r.Some? && 0 <= a.compositionIndex < |r.value.table| {
        var target := r.value.table[a.compositionIndex];
        InsertionBuilds(target, if a.insertIndex.Some? then a.insertIndex.value else |target.cards|, a.cards);
      }
    }
  }

  lemma {:induction false} FinishingBuilds(s: Finishing, deferred: seq<Deferred>)
    requires AllBuilt(s.table)
    ensures FinishAll(s, deferred).Some? ==> AllBuilt(FinishAll(s, deferred).value.table)
  {
    hide Built, ReclaimJoker;
    if deferred != [] {
      var front, d := deferred[..|deferred| - 1], deferred[|deferred| - 1];
      FinishingBuilds(s, front);
      var r := FinishAll(s, front);
      if r.Some? && 0 <= d.reclaim.compositionIndex < |r.value.table| {
        ReclaimBuilds(r.value.table[d.reclaim.compositionIndex], d.jokerIndex, d.reclaim.replacement);
      }
    }
  }

  lemma MovesBuild(table: seq<Comp>, additions: seq<Addition>, reclaims: seq<JokerReclaim>)
    requires AllBuilt(table)
    ensures TableMoves(table, additions, reclaims).Some? ==>
              AllBuilt(TableMoves(table, additions, reclaims).value.table)
  {
    hide AllBuilt, ReclaimAll, AddAll, FinishAll;
    ReclaimsBuild(table, reclaims);
    var r := ReclaimAll(table, reclaims);
    if r.Some? {
      var start := Adding(r.value.table, r.value.deferred, [], 0);
      AdditionsBuild(start, additions);
      var a := AddAll(start, additions);
      if a.Some? {
        FinishingBuilds(Finishing(a.value.table, r.value.reclaimed, []), a.value.deferred);
      }
    }
  }

  /** After a play the table holds what the constructors made, the new compositions as submitted. */
  lemma PlayBuilds(s: TableState, comps: seq<Comp>, additions: seq<Addition>, reclaims: seq<JokerReclaim>)
    requires AllBuilt(s.table) && AllBuilt(comps)
    ensures var r := ApplyTablePlay(s, comps, additions, reclaims); r.Success? ==> AllBuilt(r.value.table)
  {
    hide Built, LayComps, TableMoves, OpensFromHand;
    MovesBuild(s.table, additions, reclaims);
    LaidBuilt(comps);
  }

  // ---------------------------------------------------------------- whole runs

  /** Compositions a client submits are built by the server. */
  ghost predicate BuiltOp(op: Op) {
    match op
    case Play(comps, _, _) => AllBuilt(comps)
    case PlayAndDiscard(comps, _, _, _, _) => AllBuilt(comps)
    case _ => true
  }

  /** What a snapshot of the game needs to be read back as it was. */
  ghost predicate Restorable(s: State) {
    AllBuilt(s.table) && (s.turn.mustUseDiscardDraw ==> s.turn.discardDrawCard.Some?)
  }

  lemma {:induction false} CleanupBuilds(table: seq<Comp>, pile: seq<Card>)
    requires AllBuilt(table)
    ensures AllBuilt(RemoveCompleted(table, pile).table)
  {
    hide Built, CompositionObjects.Complete;
    if table != [] {
      CleanupBuilds(table[..|table| - 1], pile);
    }
  }

  lemma DiscardRestorable(s: State, index: int, expected: Option<Card>)
    requires Restorable(s)
    ensures Restorable(Discard(s, index, expected).state)
  {
    hide AllBuilt, RemoveCompleted, MatchIndex, WinsRound, ScoredPlayers, OthersOverLimit, Adjusted;
    CleanupBuilds(s.table, s.discardPile);
  }

  lemma PlayRestorable(s: State, comps: seq<Comp>, additions: seq<Addition>, reclaims: seq<JokerReclaim>)
    requires Restorable(s) && AllBuilt(comps)
    ensures Restorable(PlayTable(s, comps, additions, reclaims).state)
  {
    hide AllBuilt, ApplyTablePlay, Opened;
    if HasCurrent(s) {
      var p := s.players[s.turn.playerIndex];
      PlayBuilds(TableState(p.hand, s.table, p.hasOpened), comps, additions, reclaims);
    }
  }

  lemma RestoredRestorable(s: State)
    requires Restorable(s)
    ensures AllOk(s.table) && Restorable(Restored(s))
  {
    AllBuiltOk(s.table);
    hide CompOk;
    forall i | 0 <= i < |s.table|
      ensures Built(RemadeAll(s.table)[i])
    {
      RemadeBuilt(s.table[i]);
    }
  }

  lemma RemadeBuilt(c: Comp)
    requires CompOk(c)
    ensures Built(Remade(c))
  {
    ConstructorBuilds(c.cards, c.variant, false);
  }

  lemma RoundRestorable(s: State, dealer: int, chooser: int, dt: D.DealType, order: Option<seq<int>>, cut: int)
    requires s.table == [] && !s.turn.mustUseDiscardDraw
    ensures Restorable(StartRound(s, dealer, chooser, dt, order, cut).state)
  {
    hide D.InitialDeal, D.ActiveIndexes, ScoredPlayers, OthersOverLimit, Adjusted, FirstSpecial, CountRound, Built;
  }

  lemma StepRestorable(s: State, op: Op)
    requires WellFormed(s) && Possible(s, op) && BuiltOp(op) && Restorable(s)
    ensures Restorable(After(s, op).state)
  {
    hide AllBuilt, AllOk, StartRound, PlayTable, Discard, CanUse, Restored;
    RestoredRestorable(s);
    match op
    case Start(dealer, chooser, dt, order, cut, mode) =>
      RoundRestorable(Reset(s, s.drawPile).(mode := mode), dealer, chooser, dt, order, cut);
    case NextRound(dt, order, cut, deck) =>
      var flags := ActiveFlags(s.players);
      var dealer := NextOf(flags, s.dealerIndex);
      RoundRestorable(Reset(s, deck), dealer, PreviousOf(flags, dealer), dt, order, cut);
    case Play(comps, additions, reclaims) => PlayRestorable(s, comps, additions, reclaims);
    case DiscardCard(index, expected) => DiscardRestorable(s, index, expected);
    case PlayAndDiscard(comps, additions, reclaims, index, expected) =>
      PlayRestorable(Restored(s), comps, additions, reclaims);
      DiscardRestorable(PlayTable(Restored(s), comps, additions, reclaims).state, index, expected);
    case _ =>
  }

  /** In every run whose compositions the server built, every composition on the table is as it was built. */
  lemma {:induction false} EveryTableIsBuilt(states: seq<State>, ops: seq<Op>, i: nat)
    requires GameRuns.Run(states, ops) && i < |states| && forall k :: 0 <= k < |ops| ==> BuiltOp(ops[k])
    ensures Restorable(states[i])
  {
    hide Inv, Possible, After, DoubleDeck, BuiltOp, Built;
    if i > 0 {
      EveryTableIsBuilt(states, ops, i - 1);
      EveryRunKeepsTheInvariant(states, ops, i - 1);
      SeatedInv(states[i - 1]);
      assert Step(states[i - 1], ops[i - 1], states[i]);
      StepRestorable(states[i - 1], ops[i - 1]);
    }
  }

  /** No state of such a run is refused when it is read back, and it comes back the same, up to a drawn
      discard that need not be used, exactly when every run on the table keeps its layout. */
  lemma EveryRestartSucceeds(states: seq<State>, ops: seq<Op>, i: nat)
    requires GameRuns.Run(states, ops) && i < |states| && forall k :: 0 <= k < |ops| ==> BuiltOp(ops[k])
    ensures var s := states[i];
            AllOk(s.table) && Restore(SnapshotOf(s)) == Success(Restored(s)) &&
            (Restored(s) == s.(turn := Restored(s).turn) <==>
              forall k :: 0 <= k < |s.table| ==> KeepsLayout(s.table[k]))
  {
    hide InPhase, Conserved, Restore, Restored, SnapshotOf, KeepsLayout, Built, GameRuns.Run;
    var s := states[i];
    EveryTableIsBuilt(states, ops, i);
    EveryRunKeepsTheInvariant(states, ops, i);
    AllBuiltOk(s.table);
    RestoreAccepts(s);
    RestoredSameIff(s);
  }

  lemma RestoredSameIff(s: State)
    requires AllBuilt(s.table)
    ensures AllOk(s.table)
    ensures Restored(s) == s.(turn := Restored(s).turn) <==> forall k :: 0 <= k < |s.table| ==> KeepsLayout(s.table[k])
  {
    hide Built, KeepsLayout, Remade, CompOk;
    AllBuiltOk(s.table);
    forall k | 0 <= k < |s.table|
      ensures RemadeAll(s.table)[k] == s.table[k] <==> KeepsLayout(s.table[k])
    {
      RemadeSameIff(s.table[k]);
    }
    if forall k :: 0 <= k < |s.table| ==> KeepsLayout(s.table[k]) {
      assert RemadeAll(s.table) == s.table;
    }
  }

  /** A table the game accepts and a restart rearranges. */
  lemma RestartRearranges() returns (c: Comp, d: Comp)
    ensures Built(c) && LaidComp(c) == Some(c) && WithInsertedCards(c, 4, [FIVE, Joker]) == Some(d)
    ensures Built(d) && CompOk(d) && Remade(d).cards == FROM_THREE && d.cards == FROM_FIVE && FROM_THREE != FROM_FIVE
  {
    hide Built, Normalized, IsRun;
    c, d := AdditionMakesItMove();
    ConstructorBuilds(SHORT, Run, true);
    InsertionBuilds(c, 4, [FIVE, Joker]);
    BuiltIsOk(d);
    LaidAsBuilt(c);
  }
}
