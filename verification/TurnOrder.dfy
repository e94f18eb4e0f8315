/** Turns in a running round: the moves of a game pass round the table (advanceTurn of state.go). */
module TurnOrder {
  import opened Cards
  import opened Compositions
  import opened TablePlay
  import opened PlayedCards
  import opened Rotation
  import opened RoundScoring
  import opened GameModel
  import opened GameInvariants
  import opened GameRounds
  import opened Persistence
  import opened GameRuns
  import D = Dealing

  // ---------------------------------------------------------------- one step

  /** The turn is the same, or the next one, at the next active seat. */
  ghost predicate TurnPasses(s: State, t: State) {
    && ActiveFlags(t.players) == ActiveFlags(s.players) && HasCurrent(s)
    && if t.turn.number == s.turn.number then t.turn.playerIndex == s.turn.playerIndex
       else t.turn.number == s.turn.number + 1 && IsNext(ActiveFlags(s.players), s.turn.playerIndex, t.turn.playerIndex)
  }

  /** Players and turn number as they were, but for hands and counters. */
  ghost predicate SameTurn(s: State, t: State) {
    && ActiveFlags(t.players) == ActiveFlags(s.players)
    && t.turn.number == s.turn.number && t.turn.playerIndex == s.turn.playerIndex
  }

  lemma SameFlags(players: seq<Player>, after: seq<Player>)
    requires |after| == |players| && forall i :: 0 <= i < |players| ==> after[i].forfeited == players[i].forfeited
    ensures ActiveFlags(after) == ActiveFlags(players)
  {
  }

  lemma DrawsKeepTurn(s: State, accepted: bool)
    requires accepted ==> s.discardPile != []
    ensures SameTurn(s, DrawFromDeck(s).state) && SameTurn(s, DrawFromDiscard(s, accepted).state)
  {
    SameFlags(s.players, DrawFromDeck(s).state.players);
    SameFlags(s.players, DrawFromDiscard(s, accepted).state.players);
  }

  lemma PlaysKeepTurn(s: State, comps: seq<Comp>, additions: seq<Addition>, reclaims: seq<JokerReclaim>)
    ensures SameTurn(s, PlayTable(s, comps, additions, reclaims).state)
  {
    hide ApplyTablePlay, UsesCard, Opened;
    SameFlags(s.players, PlayTable(s, comps, additions, reclaims).state.players);
  }

  lemma AdvancePasses(s: State)
    requires HasCurrent(s)
    ensures TurnPasses(s, AdvanceTurn(s))
  {
    hide NextOf;
  }

  /** A discard that does not end the round passes the turn. */
  lemma DiscardPasses(s: State, index: int, expected: Option<Card>)
    requires var r := Discard(s, index, expected); r.error.Some? || r.state.phase == InProgress
    ensures HasCurrent(s) ==> TurnPasses(s, Discard(s, index, expected).state)
  {
    hide MatchIndex, RemoveCompleted, WinsRound, AdvanceTurn, TurnPasses, FinishRound;
    var r := Discard(s, index, expected);
    if r.error.None? {
      var i := s.turn.playerIndex;
      var d := Discarded(s, i, MatchIndex(s.players[i].hand, index, expected));
      SameFlags(s.players, d.players);
      if WinsRound(d.players[i].hand) {
        NotRunning(d, i);
      } else {
        AdvancePasses(d);
        PassesOn(s, d, r.state);
      }
    } else if HasCurrent(s) {
      SamePasses(s, s);
    }
  }

  lemma NotRunning(s: State, winner: int)
    requires 0 <= winner < |s.players|
    ensures FinishRound(s, winner).phase != InProgress
  {
    hide ScoredPlayers, Adjusted, OthersOverLimit;
  }

  lemma PassesOn(s: State, d: State, t: State)
    requires SameTurn(s, d) && HasCurrent(s) && TurnPasses(d, t)
    ensures TurnPasses(s, t)
  {
  }

  lemma SamePasses(s: State, t: State)
    requires SameTurn(s, t) && HasCurrent(s)
    ensures TurnPasses(s, t)
  {
  }

  lemma PlayThenDiscardPasses(s: State, op: Op)
    requires Inv(s) && s.phase == InProgress && Possible(s, op) && op.PlayAndDiscard? && WellFormed(s)
    requires After(s, op).state.phase == InProgress
    ensures TurnPasses(s, After(s, op).state)
  {
    hide Inv, PlayTable, Discard, AllOk, RemadeAll, TurnPasses, Seated;
    RunningHasCurrent(s);
    var p := PlayTable(Restored(s), op.comps, op.additions, op.reclaims);
    PlaysKeepTurn(Restored(s), op.comps, op.additions, op.reclaims);
    SameFlags(s.players, Restored(s).players);
    var r := PlayThenDiscard(s, op.comps, op.additions, op.reclaims, op.index, op.expected);
    if r.error.Some? {
      SamePasses(s, s);
    } else {
      DiscardPasses(p.state, op.index, op.expected);
      StillCurrent(s, p.state);
      PassesOn(s, p.state, r.state);
    }
  }

  lemma RunningHasCurrent(s: State)
    requires Inv(s) && s.phase == InProgress
    ensures HasCurrent(s)
  {
  }

  lemma StillCurrent(s: State, t: State)
    requires SameTurn(s, t) && HasCurrent(s)
    ensures HasCurrent(t)
  {
    assert ActiveFlags(t.players)[t.turn.playerIndex] == ActiveFlags(s.players)[s.turn.playerIndex];
  }

  /** While the round goes on and nobody leaves, every operation keeps the turn or passes it on. */
  lemma StepPasses(s: State, op: Op)
    requires Inv(s) && s.phase == InProgress && WellFormed(s) && Possible(s, op) && !op.Leave?
    requires After(s, op).state.phase == InProgress
    ensures TurnPasses(s, After(s, op).state)
  {
    hide Inv, WellFormed, AddPlayer, StartGame, StartNextRound, DrawFromDeck, DrawFromDiscard, PlayTable, Discard,
         PlayThenDiscard, EndWithoutWinner, AllOk, CanUse, TurnPasses, SameTurn;
    RunningHasCurrent(s);
    match op
    case Join(id) => OutsideRound(s, op);
    case Start(_, _, _, _, _, _) => OutsideRound(s, op);
    case NextRound(_, _, _, _) => OutsideRound(s, op);
    case End => OutsideRound(s, op);
    case Draw =>
      DrawsKeepTurn(s, false);
      SamePasses(s, DrawFromDeck(s).state);
    case TakeDiscard(accepted) =>
      DrawsKeepTurn(s, accepted);
      SamePasses(s, DrawFromDiscard(s, accepted).state);
    case Play(comps, additions, reclaims) =>
      PlaysKeepTurn(s, comps, additions, reclaims);
      SamePasses(s, PlayTable(s, comps, additions, reclaims).state);
    case DiscardCard(index, expected) => DiscardPasses(s, index, expected);
    case PlayAndDiscard(_, _, _, _, _) => PlayThenDiscardPasses(s, op);
    case Restart => RestartPasses(s);
  }

  lemma RestartPasses(s: State)
    requires WellFormed(s) && HasCurrent(s)
    ensures TurnPasses(s, Restored(s))
  {
    hide AllOk, RemadeAll;
  }

  lemma OutsideRound(s: State, op: Op)
    requires s.phase == InProgress && HasCurrent(s) && WellFormed(s) && Possible(s, op)
    requires op.Join? || op.Start? || op.NextRound? || op.End?
    requires After(s, op).state.phase == InProgress
    ensures TurnPasses(s, After(s, op).state)
  {
    hide AllOk;
    SamePasses(s, s);
  }

  // ---------------------------------------------------------------- a stretch of a run

  /** The seats that move, one entry for each turn. */
  ghost function SeatsToMove(states: seq<State>): (seats: seq<int>)
    requires states != []
    ensures seats != []
  {
    var k := |states| - 1;
    if k == 0 then [states[0].turn.playerIndex]
    else if states[k].turn.number == states[k - 1].turn.number then SeatsToMove(states[..k])
    else SeatsToMove(states[..k]) + [states[k].turn.playerIndex]
  }

  /** States `first` to `last` of a run: one round, and nobody leaves. */
  ghost predicate Undisturbed(states: seq<State>, ops: seq<Op>, first: nat, last: nat) {
    && GameRuns.Run(states, ops) && first <= last < |states|
    && (forall k :: first <= k <= last ==> states[k].phase == InProgress)
    && (forall k :: first <= k < last ==> !ops[k].Leave?)
  }

  /** Along such a stretch the moves go round the active seats of its first state. */
  lemma {:induction false} MovesGoRound(states: seq<State>, ops: seq<Op>, first: nat, last: nat)
    requires Undisturbed(states, ops, first, last)
    ensures ActiveFlags(states[last].players) == ActiveFlags(states[first].players) && HasCurrent(states[last])
    ensures var seats := SeatsToMove(states[first..last + 1]);
            Turns(ActiveFlags(states[first].players), seats) && seats[|seats| - 1] == states[last].turn.playerIndex
    decreases last
  {
    hide Inv, Possible, After, Turns, IsNext, SeatsToMove;
    EveryRunKeepsTheInvariant(states, ops, last);
    RunningHasCurrent(states[last]);
    if last == first {
      FirstTurn(states[first]);
      assert states[first..last + 1] == [states[first]];
    } else {
      MovesGoRound(states, ops, first, last - 1);
      EveryRunKeepsTheInvariant(states, ops, last - 1);
      SeatedInv(states[last - 1]);
      assert Step(states[last - 1], ops[last - 1], states[last]);
      StepPasses(states[last - 1], ops[last - 1]);
      MoreTurns(ActiveFlags(states[first].players), states[first..last], states[last]);
      assert states[first..last + 1] == states[first..last] + [states[last]];
    }
  }

  lemma FirstTurn(s: State)
    requires HasCurrent(s)
    ensures Turns(ActiveFlags(s.players), SeatsToMove([s])) && SeatsToMove([s]) == [s.turn.playerIndex]
  {
  }

  lemma MoreTurns(active: seq<bool>, states: seq<State>, t: State)
    requires states != [] && TurnPasses(states[|states| - 1], t) && HasCurrent(t)
    requires ActiveFlags(states[|states| - 1].players) == active
    requires var seats := SeatsToMove(states);
             Turns(active, seats) && seats[|seats| - 1] == states[|states| - 1].turn.playerIndex
    ensures var seats := SeatsToMove(states + [t]); Turns(active, seats) && seats[|seats| - 1] == t.turn.playerIndex
  {
    hide Turns, IsNext;
    assert (states + [t])[..|states|] == states;
    OneMoreTurn(active, SeatsToMove(states), t.turn.playerIndex);
  }

  lemma OneMoreTurn(active: seq<bool>, seats: seq<int>, next: int)
    requires Turns(active, seats) && IsActive(active, next)
    ensures IsNext(active, seats[|seats| - 1], next) ==> Turns(active, seats + [next])
  {
  }

  /** In as many turns as there are active players each of them moves exactly once. */
  lemma EveryoneMoves(states: seq<State>, ops: seq<Op>, first: nat, last: nat)
    requires Undisturbed(states, ops, first, last)
    requires |SeatsToMove(states[first..last + 1])| == ActiveCount(ActiveFlags(states[first].players))
    ensures var seats := SeatsToMove(states[first..last + 1]);
            && (forall i :: 0 <= i < |states[first].players| ==> (i in seats <==> !states[first].players[i].forfeited))
            && (forall i, j :: 0 <= i < j < |seats| ==> seats[i] != seats[j])
  {
    hide Undisturbed, Turns, SeatsToMove, ActiveCount;
    InStretch(states, ops, first, last);
    var flags, seats := ActiveFlags(states[first].players), SeatsToMove(states[first..last + 1]);
    MovesGoRound(states, ops, first, last);
    EveryoneTakesATurn(flags, seats);
    forall i | 0 <= i < |states[first].players|
      ensures i in seats <==> !states[first].players[i].forfeited
    {
      assert i in Visited(seats) <==> i in ActiveSeats(flags);
    }
  }

  lemma InStretch(states: seq<State>, ops: seq<Op>, first: nat, last: nat)
    requires Undisturbed(states, ops, first, last)
    ensures first <= last < |states|
  {
  }
}
