/** A player who takes the discard must use it, and can: in every run, with restarts at any moment, the play
    found by the search stays playable until it is used. */
module Obligations {
  import opened Cards
  import opened RunSpec
  import opened RunLayout
  import opened Compositions
  import opened TablePlay
  import opened PlayedCards
  import opened Rotation
  import opened SpecialHands
  import opened RoundScoring
  import opened SearchPlays
  import opened DiscardSearch
  import opened RelaidTables
  import opened GameModel
  import opened GameInvariants
  import opened Persistence
  import opened GameRuns
  import opened BuiltTables
  import CompositionObjects
  import D = Dealing

  // ---------------------------------------------------------------- restarts keep the promise

  lemma AllRemadeQuietly(table: seq<Comp>)
    requires AllBuilt(table)
    ensures AllOk(table) && AllQuietlyRelaid(table, RemadeAll(table))
  {
    hide Built, Remade, QuietlyRelaid, CompOk;
    AllBuiltOk(table);
    forall i | 0 <= i < |table|
      ensures QuietlyRelaid(table[i], RemadeAll(table)[i])
    {
      RemadeQuietly(table[i]);
    }
  }

  lemma UseSurvives(p: Player, table: seq<Comp>, discard: Card)
    requires AllBuilt(table) && CanUse(p, table, discard)
    ensures AllOk(table) && CanUse(p, RemadeAll(table), discard)
  {
    hide AllBuilt, AllOk, Accepted, BaseOf, RemadeAll, AllQuietlyRelaid;
    AllRemadeQuietly(table);
    var t: SearchState, q: SearchPlay :|
      Accepted(t, q, q.reclaims) && BaseOf(t, p.hand, q) && t.table == table && t.hasOpened == p.hasOpened;
    AcceptedCarries(t, q, p.hand, RemadeAll(table));
  }

  /** Whatever a restart does to the table, the promise behind the obligation survives it. */
  lemma RestartKeepsObligation(s: State)
    requires AllBuilt(s.table) && Obligation(s)
    ensures AllOk(s.table) && Obligation(Restored(s))
  {
    hide AllBuilt, AllOk, CanUse, RemadeAll;
    AllBuiltOk(s.table);
    if s.turn.mustUseDiscardDraw {
      UseSurvives(s.players[s.turn.playerIndex], s.table, s.turn.discardDrawCard.value);
    }
  }

  /** Runs whose submitted compositions the server built. */
  ghost predicate BuiltRuns(states: seq<State>, ops: seq<Op>) {
    GameRuns.Run(states, ops) && forall k :: 0 <= k < |ops| ==> BuiltOp(ops[k])
  }

  /** In every state of every run an obligation to use the discard has an accepted play behind it. */
  lemma {:induction false} ObligationAlwaysBacked(states: seq<State>, ops: seq<Op>, i: nat)
    requires BuiltRuns(states, ops) && i < |states|
    ensures Obligation(states[i])
  {
    hide Inv, Obligation, Possible, NewGame, DoubleDeck, AllBuilt, AllOk, BuiltOp;
    if i == 0 {
      var deck :| multiset(deck) == DoubleDeck() && states[0] == NewGame(deck);
      NewGameHolds(deck);
      Unbound(states[0]);
    } else {
      ObligationAlwaysBacked(states, ops, i - 1);
      EveryRunKeepsTheInvariant(states, ops, i - 1);
      EveryTableIsBuilt(states, ops, i - 1);
      SeatedInv(states[i - 1]);
      assert Step(states[i - 1], ops[i - 1], states[i]);
      StepKeeps(states[i - 1], ops[i - 1]);
      if ops[i - 1].Restart? {
        RestartKeepsObligation(states[i - 1]);
        AfterRestart(states[i - 1]);
      }
    }
  }

  lemma AfterRestart(s: State)
    requires WellFormed(s)
    ensures Possible(s, Restart) && AllOk(s.table) && After(s, Restart).state == Restored(s)
  {
  }

  lemma Unbound(s: State)
    requires !s.turn.mustUseDiscardDraw
    ensures Obligation(s)
  {
  }

  // ---------------------------------------------------------------- nobody is trapped

  /** Some play of compositions the server can build succeeds and discharges the obligation. */
  ghost predicate CanDischarge(s: State) {
    exists comps, additions, reclaims ::
      AllBuilt(comps) && PlayTable(s, comps, additions, reclaims).error.None? &&
      !PlayTable(s, comps, additions, reclaims).state.turn.mustUseDiscardDraw
  }

  /** The play the search found, on the cards now held. */
  lemma FoundPlayDischarges(s: State, t: SearchState, q: SearchPlay)
    requires Inv(s) && s.phase == InProgress && s.turn.hasDrawn && s.turn.discardDrawCard.Some?
    requires var p := s.players[s.turn.playerIndex];
             Accepted(t, q, q.reclaims) && BaseOf(t, p.hand, q) && t.table == s.table && t.hasOpened == p.hasOpened &&
             p.hand != [] && p.hand[|p.hand| - 1] == s.turn.discardDrawCard.value &&
             (p.hasOpened || OpensWithoutJoker(t, q, p.hand))
    ensures CanDischarge(s)
  {
    hide ApplyTablePlay, OpensWithoutJoker, UsesCard, AllOk, AllBuilt, Covers, Arranges, Conserved, Seated, TwoActive,
         TotalsWithinLimit, HandSizes, Held, Obligation, BaseOf;
    SeatedInv(s);
    var p := s.players[s.turn.playerIndex];
    var comps := AcceptedPlayExecutes(t, q, p.hand);
    var additions := AdditionsOf(t.hand, q.additions);
    SomethingPlayed(t, q, comps);
    SubmittedIsBuilt(t, q, comps);
    assert PlayTable(s, comps, additions, q.reclaims).error.None?;
  }

  lemma SomethingPlayed(t: SearchState, q: SearchPlay, comps: seq<Comp>)
    requires ValidPlay(t, q) && Arranges(t.hand, q.masks, q.variants, comps)
    ensures comps != [] || AdditionsOf(t.hand, q.additions) != [] || q.reclaims != []
  {
    hide MasksValid, TableMoves, Submitted, CompOk;
  }

  lemma SubmittedIsBuilt(t: SearchState, q: SearchPlay, comps: seq<Comp>)
    requires Arranges(t.hand, q.masks, q.variants, comps)
    ensures AllBuilt(comps)
  {
    hide MakeComp, CompOk, Built;
    forall i | 0 <= i < |comps|
      ensures Built(comps[i])
    {
      ConstructorBuilds(comps[i].cards, comps[i].variant, true);
    }
  }

  /** The player has opened, or the cards held before the draw can reclaim no joker of the table. */
  ghost predicate Unhindered(s: State) {
    HasCurrent(s) &&
    var p := s.players[s.turn.playerIndex];
    p.hasOpened || (p.hand != [] && !Reclaimable(s.table, p.hand[..|p.hand| - 1]))
  }

  lemma BackedAndUnhindered(s: State)
    requires Inv(s) && s.phase == InProgress && s.turn.mustUseDiscardDraw && Obligation(s) && Unhindered(s)
    ensures CanDischarge(s)
  {
    hide Inv, Accepted, BaseOf, CanDischarge, Reclaimable, OpensWithoutJoker;
    var p := s.players[s.turn.playerIndex];
    var t: SearchState, q: SearchPlay :|
      Accepted(t, q, q.reclaims) && BaseOf(t, p.hand, q) && t.table == s.table && t.hasOpened == p.hasOpened;
    if !p.hasOpened {
      NothingCounted(t, q, p.hand);
      AcceptedIsValid(t, q);
      PlainPlayOpens(t, q, p.hand);
    }
    FoundPlayDischarges(s, t, q);
  }

  lemma AcceptedIsValid(t: SearchState, q: SearchPlay)
    requires Accepted(t, q, q.reclaims)
    ensures ValidPlay(t, q)
  {
  }

  /** In every state of every run a player who must use the drawn discard can do so after having opened, or if
      the cards held before can reclaim no joker of the table. */
  lemma NeverTrapped(states: seq<State>, ops: seq<Op>, i: nat)
    requires BuiltRuns(states, ops) && i < |states|
    ensures var s := states[i];
            s.phase == InProgress && s.turn.mustUseDiscardDraw && Unhindered(s) ==> CanDischarge(s)
  {
    hide Inv, Possible, After, CanDischarge, Unhindered, Obligation, BuiltOp;
    EveryRunKeepsTheInvariant(states, ops, i);
    ObligationAlwaysBacked(states, ops, i);
    if states[i].phase == InProgress && states[i].turn.mustUseDiscardDraw && Unhindered(states[i]) {
      BackedAndUnhindered(states[i]);
    }
  }
}
