/** A room's players, its game and the proposal to end it (lobby_server.go): a game ends without a winner
    only when every player still in it has agreed. */
module Rooms {
  import opened Cards
  import opened Compositions
  import opened TablePlay
  import opened PlayedCards
  import opened Piles
  import opened Rotation
  import opened RoundScoring
  import opened GameModel
  import opened GameInvariants
  import opened GameRounds
  import opened GameRuns
  import opened Persistence
  import PlayerRecords
  import D = Dealing

  datatype MemberValue = MemberValue(id: string, connected: bool, forfeited: bool)

  datatype ProposalValue = ProposalValue(kind: string, proposer: string, eligible: seq<string>, agreed: set<string>)

  datatype Conclusion = NoConclusion | WonByForfeit(winner: string) | EndedBy(kind: string)

  datatype RoomValue = RoomValue(members: seq<MemberValue>, hostId: string, game: State,
                                 proposal: Option<ProposalValue>, conclusion: Conclusion)

  // ---------------------------------------------------------------- proposals

  /** Players who have not forfeited, in seat order. */
  function EligibleIds(members: seq<MemberValue>): seq<string> {
    if members == [] then []
    else
      var k := |members| - 1;
      EligibleIds(members[..k]) + if members[k].forfeited then [] else [members[k].id]
  }

  function NewProposal(members: seq<MemberValue>, kind: string, proposer: string): ProposalValue {
    ProposalValue(kind, proposer, EligibleIds(members), {proposer})
  }

  predicate Unanimous(p: ProposalValue) {
    p.eligible != [] && forall i :: 0 <= i < |p.eligible| ==> p.eligible[i] in p.agreed
  }

  function WithoutId<T(==)>(ids: seq<T>, id: T): seq<T> {
    if ids == [] then []
    else
      var k := |ids| - 1;
      WithoutId(ids[..k], id) + if ids[k] == id then [] else [ids[k]]
  }

  /** The proposal after a player has left: dropped if it was theirs or fewer than two remain. */
  function RemovePlayer(p: Option<ProposalValue>, id: string): Option<ProposalValue> {
    if p.None? then None
    else
      var next := p.value.(eligible := WithoutId(p.value.eligible, id), agreed := p.value.agreed - {id});
      if next.proposer == id || |next.eligible| < 2 then None else Some(next)
  }

  // ---------------------------------------------------------------- commands

  predicate Running(s: State) {
    s.phase == InProgress || s.phase == RoundOver
  }

  /** The seat of a player in the room, or the number of seats. */
  function MemberSeat(members: seq<MemberValue>, id: string): (i: nat)
    ensures i <= |members| && (i < |members| ==> members[i].id == id)
    ensures forall j :: 0 <= j < i ==> members[j].id != id
  {
    if members == [] then 0
    else
      var k := |members| - 1;
      var i := MemberSeat(members[..k], id);
      if i < k || members[k].id == id then i else k + 1
  }

  predicate IsActiveMember(members: seq<MemberValue>, id: string) {
    var i := MemberSeat(members, id);
    i < |members| && !members[i].forfeited
  }

  /** The first player who has not forfeited becomes host. */
  function FirstActiveId(members: seq<MemberValue>): string {
    if EligibleIds(members) == [] then "" else EligibleIds(members)[0]
  }

  /** A command either fails and changes nothing, or yields the new room. */
  function Propose(r: RoomValue, kind: string, id: string): Option<RoomValue> {
    if !Running(r.game) || !IsActiveMember(r.members, id) || r.proposal.Some? then None
    else Some(r.(proposal := Some(NewProposal(r.members, kind, id))))
  }

  function Vote(r: RoomValue, id: string, approve: bool): Option<RoomValue> {
    if r.proposal.None? || id !in r.proposal.value.eligible then None
    else if !approve then Some(r.(proposal := None))
    else
      var p := r.proposal.value.(agreed := r.proposal.value.agreed + {id});
      if !Unanimous(p) then Some(r.(proposal := Some(p)))
      else
        var ended := EndWithoutWinner(r.game);
        if ended.error.Some? then None
        else Some(r.(game := ended.state, conclusion := EndedBy(p.kind), proposal := None))
  }

  /** The winner's id when a forfeit leaves one player, as the game reports it. */
  function WinnerId(s: State): string {
    if s.phase == GameOver && 0 <= s.roundWinnerIndex < |s.players| then s.players[s.roundWinnerIndex].id else ""
  }

  function LeaveMembers(members: seq<MemberValue>, i: nat): seq<MemberValue>
    requires i < |members|
  {
    members[i := members[i].(forfeited := true, connected := false)]
  }

  ghost function ForfeitGame(r: RoomValue, id: string, shuffled: seq<Card>): Option<RoomValue>
    requires Seated(r.game)
  {
    if !IsActiveMember(r.members, id) then None
    else
      var left := Forfeit(r.game, id, shuffled);
      if left.error.Some? then None
      else
        var members := LeaveMembers(r.members, MemberSeat(r.members, id));
        var next := r.(members := members, hostId := if r.hostId == id then FirstActiveId(members) else r.hostId,
                       game := left.state, proposal := RemovePlayer(r.proposal, id));
        if left.state.phase == GameOver then
          Some(next.(conclusion := WonByForfeit(WinnerId(left.state)), proposal := None))
        else if next.proposal.Some? && Unanimous(next.proposal.value) then
          // The result of ending is ignored here; EndingAfterForfeitSucceeds shows that it never fails.
          Some(next.(game := EndWithoutWinner(left.state).state, conclusion := EndedBy(next.proposal.value.kind),
                     proposal := None))
        else Some(next)
  }

  // ---------------------------------------------------------------- what a room keeps

  /** The room and its game agree on who is in the game and who has left it. */
  predicate SamePeople(members: seq<MemberValue>, players: seq<Player>) {
    |members| == |players| && forall i :: 0 <= i < |members| ==>
      members[i].id == players[i].id && members[i].forfeited == players[i].forfeited
  }

  /** While the game runs, a proposal is put to exactly the players still in it, and only they have agreed. */
  predicate ProposalOk(r: RoomValue) {
    Running(r.game) && r.proposal.Some? ==>
      var p := r.proposal.value;
      p.eligible == EligibleIds(r.members) && p.proposer in p.agreed && forall id :: id in p.agreed ==> id in p.eligible
  }

  ghost predicate RoomOk(r: RoomValue) {
    Inv(r.game) && SamePeople(r.members,
        r.game.players) && ProposalOk(r) && (r.game.phase == Lobby ==> r.proposal.None?)
  }

  lemma {:induction false} InEligible(members: seq<MemberValue>, id: string)
    ensures id in EligibleIds(members) <==>
              exists i :: 0 <= i < |members| && members[i].id == id && !members[i].forfeited
  {
    if members != [] {
      var k := |members| - 1;
      InEligible(members[..k], id);
      if i :| 0 <= i < |members| && members[i].id == id && !members[i].forfeited {
        assert i == k || (members[..k][i].id == id && !members[..k][i].forfeited);
      }
    }
  }

  predicate UniqueIds(members: seq<MemberValue>) {
    forall i, j :: 0 <= i < j < |members| ==> members[i].id != members[j].id
  }

  lemma {:induction false} NotAmongLater<T>(ids: seq<T>, id: T)
    requires id !in ids
    ensures WithoutId(ids, id) == ids
  {
    if ids != [] {
      var k := |ids| - 1;
      NotAmongLater(ids[..k], id);
      assert ids == ids[..k] + [ids[k]];
    }
  }

  lemma {:induction false} WithoutConcat<T>(a: seq<T>, b: seq<T>, id: T)
    ensures WithoutId(a + b, id) == WithoutId(a, id) + WithoutId(b, id)
  {
    if b == [] {
      assert a + b == a;
    } else {
      var k := |b| - 1;
      assert (a + b)[..|a + b| - 1] == a + b[..k];
      WithoutConcat(a, b[..k], id);
    }
  }

  lemma WithoutOne<T>(x: T, id: T)
    ensures WithoutId([x], id) == if x == id then [] else [x]
  {
    assert [x][..0] == [];
  }

  function Asked(m: MemberValue): seq<string> {
    if m.forfeited then [] else [m.id]
  }

  lemma EligibleSnoc(members: seq<MemberValue>, m: MemberValue)
    ensures EligibleIds(members + [m]) == EligibleIds(members) + Asked(m)
  {
    assert (members + [m])[..|members + [m]| - 1] == members;
  }

  /** The players asked after one has left are those asked before, without that one. */
  lemma {:induction false} EligibleAfterLeaving(members: seq<MemberValue>, i: nat)
    requires i < |members| && UniqueIds(members)
    ensures EligibleIds(LeaveMembers(members, i)) == WithoutId(EligibleIds(members), members[i].id)
    decreases |members|
  {
    hide EligibleIds, WithoutId;
    var k := |members| - 1;
    var front, last, id := members[..k], members[k], members[i].id;
    assert members == front + [last];
    EligibleSnoc(front, last);
    WithoutConcat(EligibleIds(front), Asked(last), id);
    WithoutOne(last.id, id);
    if i == k {
      assert LeaveMembers(members, i) == front + [last.(forfeited := true, connected := false)];
      EligibleSnoc(front, last.(forfeited := true, connected := false));
      InEligible(front, id);
      NotAmongLater(EligibleIds(front), id);
      WithoutNothing(id);
    } else {
      assert LeaveMembers(members, i) == LeaveMembers(front, i) + [last];
      EligibleSnoc(LeaveMembers(front, i), last);
      EligibleAfterLeaving(front, i);
      WithoutNothing(id);
    }
  }

  lemma WithoutNothing<T>(id: T)
    ensures WithoutId([], id) == []
  {
  }

  lemma {:induction false} InWithout<T>(ids: seq<T>, id: T, x: T)
    ensures x in WithoutId(ids, id) <==> x in ids && x != id
  {
    if ids != [] {
      var k := |ids| - 1;
      InWithout(ids[..k], id, x);
      assert ids == ids[..k] + [ids[k]];
    }
  }

  lemma MembersAreUnique(r: RoomValue)
    requires RoomOk(r)
    ensures UniqueIds(r.members)
  {
    hide InPhase, Conserved, PenaltySum, InflictedSum;
    assert DistinctIds(r.game.players);
  }

  // ---------------------------------------------------------------- voting and proposing

  lemma ProposeKeeps(r: RoomValue, kind: string, id: string)
    requires RoomOk(r) && Propose(r, kind, id).Some?
    ensures RoomOk(Propose(r, kind, id).value)
  {
    hide Inv;
    InEligible(r.members, id);
  }

  /** A vote keeps the room in order; if it ends the game, every player still in it has agreed. */
  lemma VoteKeeps(r: RoomValue, id: string, approve: bool)
    requires RoomOk(r) && Vote(r, id, approve).Some?
    ensures var t := Vote(r, id, approve).value;
            RoomOk(t) && (t.game != r.game ==>
              Running(r.game) && t.game.phase == GameOver && t.game.roundWinnerIndex == -1 &&
              forall x :: x in EligibleIds(t.members) ==> x in r.proposal.value.agreed + {id})
  {
    hide Inv;
    EndKeeps(r.game);
  }

  // ---------------------------------------------------------------- forfeiting

  lemma SameSeat(members: seq<MemberValue>, players: seq<Player>, id: string)
    requires SamePeople(members, players)
    ensures MemberSeat(members, id) == SeatOf(players, id)
  {
    var i, j := MemberSeat(members, id), SeatOf(players, id);
    assert i <= j && j <= i;
  }

  /** Who is seated and who has left after a forfeit. */
  lemma ForfeitPeople(s: State, id: string, shuffled: seq<Card>)
    requires Inv(s) && Forfeit(s, id, shuffled).error.None?
    ensures var t, i := Forfeit(s, id, shuffled).state, SeatOf(s.players, id);
            && Running(s) && i < |s.players| && |t.players| == |s.players|
            && (forall j :: 0 <= j < |s.players| ==>
                  t.players[j].id == s.players[j].id && (t.players[j].forfeited <==> s.players[j].forfeited || j == i))
            && (t.phase == GameOver || t.phase == s.phase)
            && (t.phase == GameOver ==> t.roundWinnerIndex >= 0)
  {
    hide Inv, AdvanceTurn, RecordedAll, NextForfeitOrder;
    SeatedInv(s);
    SeatedBasics(s);
    var i := SeatOf(s.players, id);
    var t := Without(s, i, shuffled);
    WithoutFields(s, i, shuffled);
    var active := D.ActiveIndexes(t.players);
    if |active| == 1 {
      RecordedPeople(t, active[0]);
      RecordedFlags(t, active[0]);
    } else if s.phase == InProgress && s.turn.playerIndex == i {
      PlayerRecords.AdvancedFields(t);
    }
  }

  lemma RecordedFlags(s: State, winner: int)
    ensures forall i :: 0 <= i < |s.players| ==>
              RecordedAll(s.players, s.round, winner)[i].forfeited == s.players[i].forfeited
    ensures forall i :: 0 <= i < |s.players| ==> RecordedAll(s.players, s.round, winner)[i].id == s.players[i].id
  {
  }

  lemma LeftPeople(r: RoomValue, id: string, shuffled: seq<Card>)
    requires RoomOk(r) && IsActiveMember(r.members, id) && Forfeit(r.game, id, shuffled).error.None?
    ensures SamePeople(LeaveMembers(r.members, MemberSeat(r.members, id)), Forfeit(r.game, id, shuffled).state.players)
  {
    hide Inv, Forfeit;
    SameSeat(r.members, r.game.players, id);
    ForfeitPeople(r.game, id, shuffled);
  }

  /** The proposal, if it survives, is put to those who stay. */
  lemma LeftProposal(r: RoomValue, id: string)
    requires RoomOk(r) && Running(r.game) && IsActiveMember(r.members, id)
    ensures var q, members := RemovePlayer(r.proposal, id), LeaveMembers(r.members, MemberSeat(r.members, id));
            q.Some? ==> q.value.eligible == EligibleIds(members) && q.value.proposer in q.value.agreed &&
                        forall x :: x in q.value.agreed ==> x in q.value.eligible
  {
    hide Inv;
    MembersAreUnique(r);
    EligibleAfterLeaving(r.members, MemberSeat(r.members, id));
    if r.proposal.Some? {
      forall x | x in r.proposal.value.agreed - {id}
        ensures x in WithoutId(r.proposal.value.eligible, id)
      {
        InWithout(r.proposal.value.eligible, id, x);
      }
    }
  }

  /** Ending the game after a forfeit that left it running cannot fail. */
  lemma EndingAfterForfeitSucceeds(r: RoomValue, id: string, shuffled: seq<Card>)
    requires RoomOk(r) && Forfeit(r.game, id, shuffled).error.None? &&
             Forfeit(r.game, id, shuffled).state.phase != GameOver
    ensures EndWithoutWinner(Forfeit(r.game, id, shuffled).state).error.None?
  {
    hide Inv, Forfeit;
    ForfeitPeople(r.game, id, shuffled);
  }

  ghost predicate Shuffles(r: RoomValue, id: string, shuffled: seq<Card>) {
    var i := SeatOf(r.game.players, id);
    i < |r.game.players| ==> multiset(shuffled) == multiset(r.game.drawPile) + multiset(r.game.players[i].hand)
  }

  /** A forfeit keeps the room in order; if it ends the game without a winner, every remaining player has agreed. */
  lemma ForfeitKeepsRoom(r: RoomValue, id: string, shuffled: seq<Card>)
    requires RoomOk(r) && Shuffles(r, id, shuffled) && Seated(r.game) && ForfeitGame(r, id, shuffled).Some?
    ensures var t := ForfeitGame(r, id, shuffled).value;
            RoomOk(t) && Running(r.game) && (t.game.phase == GameOver && t.game.roundWinnerIndex == -1 ==>
              r.proposal.Some? && forall x :: x in EligibleIds(t.members) ==> x in r.proposal.value.agreed)
  {
    hide Inv, Forfeit, RemovePlayer, EligibleIds, SamePeople, FirstActiveId, Seated;
    SeatedBasics(r.game);
    var left := Forfeit(r.game, id, shuffled);
    ForfeitPeople(r.game, id, shuffled);
    LeftPeople(r, id, shuffled);
    LeftProposal(r, id);
    ForfeitKeeps(r.game, id, shuffled);
    EndKeeps(left.state);
    AgreedBefore(r.proposal, id);
  }

  lemma AgreedBefore(p: Option<ProposalValue>, id: string)
    ensures RemovePlayer(p, id).Some? ==> p.Some? && RemovePlayer(p, id).value.agreed <= p.value.agreed
  {
  }

  // ---------------------------------------------------------------- everything else the game does

  /** Operations of the game that neither seat nor remove anybody and do not end it by agreement. */
  predicate Ordinary(op: Op) {
    !op.Join? && !op.Leave? && !op.End?
  }

  ghost predicate PeopleStay(s: State, t: State) {
    && |t.players| == |s.players|
    && (forall i :: 0 <= i < |s.players| ==>
          t.players[i].id == s.players[i].id && t.players[i].forfeited == s.players[i].forfeited)
    && (Running(s) && t.phase == GameOver ==> t.roundWinnerIndex >= 0)
    && (s.phase != Lobby ==> t.phase != Lobby) && (s.phase == GameOver ==> t == s)
  }

  lemma FinishStays(s: State, winner: int)
    requires 0 <= winner < |s.players| && s.phase != GameOver
    ensures PeopleStay(s, FinishRound(s, winner))
  {
    FinishedPlayers(s, winner);
    hide ScoredPlayers, Adjusted, OthersOverLimit, PenaltySum, InflictedSum;
  }

  lemma DiscardStays(s: State, index: int, expected: Option<Card>)
    requires Seated(s) && s.phase != GameOver
    ensures PeopleStay(s, Discard(s, index, expected).state)
  {
    hide MatchIndex, RemoveCompleted, WinsRound, FinishRound, AdvanceTurn, WithoutAt, Seated;
    SeatedBasics(s);
    var r := Discard(s, index, expected);
    if r.error.None? {
      var i := s.turn.playerIndex;
      var k := MatchIndex(s.players[i].hand, index, expected);
      var d := Discarded(s, i, k);
      if WinsRound(d.players[i].hand) {
        FinishStays(d, i);
      } else {
        PlayerRecords.AdvancedFields(d);
      }
    }
  }

  lemma PlayStays(s: State, comps: seq<Comp>, additions: seq<Addition>, reclaims: seq<JokerReclaim>)
    ensures PeopleStay(s, PlayTable(s, comps, additions, reclaims).state)
    ensures PlayTable(s, comps, additions, reclaims).state.phase == s.phase
    ensures s.phase == GameOver ==> PlayTable(s, comps, additions, reclaims).error.Some?
  {
    hide ApplyTablePlay, UsesCard, Opened;
  }

  lemma DrawStays(s: State, accepted: bool)
    requires accepted ==> s.discardPile != []
    ensures PeopleStay(s, DrawFromDeck(s).state) && PeopleStay(s, DrawFromDiscard(s, accepted).state)
  {
  }

  lemma PlayThenDiscardStays(s: State, comps: seq<Comp>, additions: seq<Addition>, reclaims: seq<JokerReclaim>,
                             index: int, expected: Option<Card>)
    requires Inv(s) && AllOk(s.table) && AllOk(comps)
    ensures PeopleStay(s, PlayThenDiscard(s, comps, additions, reclaims, index, expected).state)
  {
    hide AllOk, PlayTable, Discard, RemadeAll, Conserved, InPhase, Seated;
    RestoredKeeps(s);
    PlayTableKeeps(Restored(s), comps, additions, reclaims);
    PlayStays(Restored(s), comps, additions, reclaims);
    var p := PlayTable(Restored(s), comps, additions, reclaims).state;
    if p.phase != GameOver {
      DiscardStays(p, index, expected);
    }
  }

  lemma DealtStays(s: State, deck: seq<Card>, mode: Mode, dealer: int, d: D.Dealt)
    requires var r := Reset(s, deck);
             |d.players| == |s.players| && |d.pile| > 0 && 0 <= dealer < |s.players| &&
             forall i :: 0 <= i < |s.players| ==> d.players[i] == r.players[i].(hand := d.players[i].hand)
    ensures var t := Dealt(Reset(s, deck).(mode := mode), dealer, d);
            |t.players| == |s.players| && t.phase != Lobby && (t.phase == GameOver ==> t.roundWinnerIndex >= 0) &&
            forall i :: 0 <= i < |s.players| ==>
              t.players[i].id == s.players[i].id && t.players[i].forfeited == s.players[i].forfeited
  {
    hide FinishRound, FirstSpecial, NextOf, ActiveFlags;
    var u := JustDealt(Reset(s, deck).(mode := mode), dealer, d);
    var special := FirstSpecial(u.players);
    if special < |u.players| {
      FinishedPlayers(u, special);
      Finishes(u, special);
    }
  }

  lemma Finishes(s: State, winner: int)
    requires 0 <= winner < |s.players|
    ensures FinishRound(s, winner).phase == RoundOver || FinishRound(s, winner).phase == GameOver
    ensures FinishRound(s, winner).roundWinnerIndex == winner
  {
    hide ScoredPlayers, Adjusted, OthersOverLimit;
  }

  lemma StartStays(s: State, deck: seq<Card>, mode: Mode, dealer: int, chooser: int, dt: D.DealType,
                   order: Option<seq<int>>, cut: int)
    requires StartRound(Reset(s, deck).(mode := mode), dealer, chooser, dt, order, cut).error.None?
    ensures var t := StartRound(Reset(s, deck).(mode := mode), dealer, chooser, dt, order, cut).state;
            |t.players| == |s.players| && t.phase != Lobby && (t.phase == GameOver ==> t.roundWinnerIndex >= 0) &&
            forall i :: 0 <= i < |s.players| ==>
              t.players[i].id == s.players[i].id && t.players[i].forfeited == s.players[i].forfeited
  {
    hide Dealt, PreviousOf, ActiveFlags, D.InitialDeal, D.ActiveIndexes;
    var u := Reset(s, deck).(mode := mode);
    D.DealConserves(u.players, u.drawPile, dt, order, dealer, cut);
    DealtStays(s, deck, mode, dealer, D.InitialDeal(u.players, u.drawPile, dt, order, dealer, cut).value);
  }

  lemma StartGameStays(s: State, op: Op)
    requires op.Start? && StartGame(s, op.dealer, op.chooser, op.dt, op.order, op.cut, op.mode).error.None?
    ensures PeopleStay(s, StartGame(s, op.dealer, op.chooser, op.dt, op.order, op.cut, op.mode).state)
  {
    hide StartRound, Reset;
    StartStays(s, s.drawPile, op.mode, op.dealer, op.chooser, op.dt, op.order, op.cut);
  }

  lemma NextRoundStays(s: State, op: Op)
    requires op.NextRound? && WellFormed(s) && StartNextRound(s, op.dt, op.order, op.cut, op.deck).error.None?
    ensures PeopleStay(s, StartNextRound(s, op.dt, op.order, op.cut, op.deck).state)
  {
    hide StartRound, Reset, NextOf, PreviousOf, ActiveFlags, AllOk, DistinctIds;
    PlayerRecords.KeepsMode(s, op.deck);
    var flags := ActiveFlags(s.players);
    var dealer := NextOf(flags, s.dealerIndex);
    StartStays(s, op.deck, s.mode, dealer, PreviousOf(flags, dealer), op.dt, op.order, op.cut);
  }

  lemma OrdinaryStays(s: State, op: Op)
    requires Inv(s) && WellFormed(s) && Possible(s, op) && Ordinary(op) && After(s, op).error.None?
    ensures PeopleStay(s, After(s, op).state) || s.phase == GameOver
  {
    hide Inv, StartGame, StartNextRound, DrawFromDeck, DrawFromDiscard, PlayTable, Discard, PlayThenDiscard, AllOk,
         CanUse, RemadeAll, Seated, PeopleStay;
    if s.phase != GameOver {
      match op
      case Start(_, _, _, _, _, _) => StartGameStays(s, op);
      case NextRound(_, _, _, _) => NextRoundStays(s, op);
      case Draw => DrawStays(s, false);
      case TakeDiscard(accepted) => DrawStays(s, accepted);
      case Play(comps, additions, reclaims) => PlayStays(s, comps, additions, reclaims);
      case DiscardCard(index, expected) => DiscardStays(s, index, expected);
      case PlayAndDiscard(comps, additions, reclaims, index, expected) =>
        PlayThenDiscardStays(s, comps, additions, reclaims, index, expected);
      case Restart => RestartStays(s);
    }
  }

  lemma RestartStays(s: State)
    requires AllOk(s.table) && s.phase != GameOver
    ensures PeopleStay(s, Restored(s))
  {
    hide RemadeAll, AllOk;
  }

  lemma OrdinaryKeepsRoom(r: RoomValue, op: Op)
    requires RoomOk(r) && WellFormed(r.game) && Possible(r.game, op) && Ordinary(op) && After(r.game, op).error.None?
    ensures var t := r.(game := After(r.game, op).state);
            RoomOk(t) && (Running(r.game) && t.game.phase == GameOver ==> t.game.roundWinnerIndex >= 0)
  {
    hide Inv, WellFormed, Possible, After, Obligation;
    StepKeeps(r.game, op);
    OrdinaryStays(r.game, op);
    if r.game.phase == GameOver {
      OverIsOver(r.game, op);
    }
  }

  lemma OverIsOver(s: State, op: Op)
    requires WellFormed(s) && Possible(s, op) && Ordinary(op) && s.phase == GameOver && After(s, op).error.None?
    ensures var t := After(s, op).state; t.phase == GameOver && t.players == s.players
  {
    hide AllOk, RemadeAll, CanUse, DistinctIds, ApplyTablePlay;
  }

  // ---------------------------------------------------------------- whole runs

  datatype RoomOp =
    | Enter(id: string)
    | Ask(kind: string, id: string)
    | Answer(id: string, approve: bool)
    | Expire
    | Resign(id: string, shuffled: seq<Card>)
    | Act(op: Op)

  ghost predicate RoomPossible(r: RoomValue, op: RoomOp) {
    match op
    case Enter(id) => id != ""
    case Resign(id, shuffled) => Shuffles(r, id, shuffled)
    case Act(op) => Ordinary(op) && Possible(r.game, op)
    case _ => true
  }

  /** The room after a command; a failed command changes nothing. */
  ghost function RoomAfter(r: RoomValue, op: RoomOp): RoomValue
    requires WellFormed(r.game) && RoomPossible(r, op)
  {
    var t :=
      match op
      case Enter(id) =>
        var g := AddPlayer(r.game, NewPlayer(id));
        if g.error.Some? then None else Some(r.(game := g.state, members := r.members + [MemberValue(id, true, false)]))
      case Ask(kind, id) => Propose(r, kind, id)
      case Answer(id, approve) => Vote(r, id, approve)
      case Expire => Some(r.(proposal := None))
      case Resign(id, shuffled) => ForfeitGame(r, id, shuffled)
      case Act(op) =>
        var g := After(r.game, op);
        if g.error.Some? then None else Some(r.(game := g.state));
    if t.Some? then t.value else r
  }

  /** Those who have agreed by the end of the command. */
  function AgreedBy(r: RoomValue, op: RoomOp): set<string> {
    (if r.proposal.Some? then r.proposal.value.agreed else {}) + (if op.Answer? && op.approve then {op.id} else {})
  }

  predicate EndsWithoutWinner(s: State, t: State) {
    Running(s) && t.phase == GameOver && t.roundWinnerIndex == -1
  }

  lemma EnterKeeps(r: RoomValue, id: string)
    requires RoomOk(r) && id != "" && AddPlayer(r.game, NewPlayer(id)).error.None?
    ensures RoomOk(r.(game := AddPlayer(r.game, NewPlayer(id)).state,
                      members := r.members + [MemberValue(id, true, false)]))
  {
    hide Inv;
    AddPlayerKeeps(r.game, id);
  }

  lemma RoomStepKeeps(r: RoomValue, op: RoomOp)
    requires RoomOk(r) && WellFormed(r.game) && RoomPossible(r, op)
    ensures RoomOk(RoomAfter(r, op))
    ensures EndsWithoutWinner(r.game, RoomAfter(r, op).game) ==>
              forall id :: id in EligibleIds(RoomAfter(r, op).members) ==> id in AgreedBy(r, op)
  {
    hide Inv, After, Propose, Vote, ForfeitGame, AddPlayer, Possible, AllOk, Seated, SamePeople, EligibleIds;
    match op
    case Enter(id) =>
      if AddPlayer(r.game, NewPlayer(id)).error.None? {
        EnterKeeps(r, id);
        StaysLobby(r.game, id);
      }
    case Ask(kind, id) =>
      if Propose(r, kind, id).Some? {
        ProposeKeeps(r, kind, id);
        SameGame(r, kind, id);
      }
    case Answer(id, approve) =>
      if Vote(r, id, approve).Some? {
        VoteKeeps(r, id, approve);
        VoteNeedsProposal(r, id, approve);
      }
    case Expire =>
    case Resign(id, shuffled) =>
      if ForfeitGame(r, id, shuffled).Some? {
        ForfeitKeepsRoom(r, id, shuffled);
      }
    case Act(op) =>
      if After(r.game, op).error.None? {
        OrdinaryKeepsRoom(r, op);
      }
  }

  lemma StaysLobby(s: State, id: string)
    requires AddPlayer(s, NewPlayer(id)).error.None?
    ensures s.phase == Lobby
  {
  }

  lemma SameGame(r: RoomValue, kind: string, id: string)
    requires Propose(r, kind, id).Some?
    ensures Propose(r, kind, id).value.game == r.game
  {
  }

  lemma VoteNeedsProposal(r: RoomValue, id: string, approve: bool)
    requires Vote(r, id, approve).Some?
    ensures r.proposal.Some? && (!approve ==> Vote(r, id, approve).value.game == r.game)
  {
  }

  ghost predicate RoomRun(rooms: seq<RoomValue>, ops: seq<RoomOp>) {
    && |rooms| == |ops| + 1
    && (exists deck ::
          multiset(deck) == DoubleDeck() && rooms[0] == RoomValue([], "", NewGame(deck), None, NoConclusion))
    && forall i :: 0 <= i < |ops| && WellFormed(rooms[i].game) ==>
         RoomPossible(rooms[i], ops[i]) && rooms[i + 1] == RoomAfter(rooms[i], ops[i])
  }

  lemma {:induction false} RoomsStayInOrder(rooms: seq<RoomValue>, ops: seq<RoomOp>, i: nat)
    requires RoomRun(rooms, ops) && i < |rooms|
    ensures RoomOk(rooms[i]) && WellFormed(rooms[i].game)
  {
    hide Inv, RoomPossible, RoomAfter, NewGame, DoubleDeck;
    if i == 0 {
      var deck :| multiset(deck) == DoubleDeck() && rooms[0] == RoomValue([], "", NewGame(deck), None, NoConclusion);
      NewGameHolds(deck);
      NobodySeated(deck);
    } else {
      RoomsStayInOrder(rooms, ops, i - 1);
      RoomStepKeeps(rooms[i - 1], ops[i - 1]);
    }
    SeatedInv(rooms[i].game);
  }

  lemma NobodySeated(deck: seq<Card>)
    ensures NewGame(deck).players == [] && NewGame(deck).phase == Lobby
  {
  }

  /** In every run of room commands a game ends without a winner only when every player still in it has
      agreed to the proposal. */
  lemma AgreementIsUnanimous(rooms: seq<RoomValue>, ops: seq<RoomOp>, i: nat)
    requires RoomRun(rooms, ops) && i < |ops| && EndsWithoutWinner(rooms[i].game, rooms[i + 1].game)
    ensures forall id :: id in EligibleIds(rooms[i + 1].members) ==> id in AgreedBy(rooms[i], ops[i])
    ensures SamePeople(rooms[i + 1].members, rooms[i + 1].game.players)
  {
    hide Inv, RoomPossible, RoomAfter, EndsWithoutWinner, AgreedBy, EligibleIds;
    RoomsStayInOrder(rooms, ops, i);
    RoomsStayInOrder(rooms, ops, i + 1);
    RoomStepKeeps(rooms[i], ops[i]);
  }
}
