/** What proposals, votes and departures do to a room: when the command succeeds, who is asked, when the game ends and
    for whom, and who is host afterwards. */
module RoomResults {
  import opened Cards
  import opened TablePlay
  import opened RoundScoring
  import opened GameModel
  import opened GameInvariants
  import opened GameRounds
  import opened RoundResults
  import opened Departures
  import opened Rooms

  /** A member who has not left the game. */
  predicate StillIn(members: seq<MemberValue>, i: int) {
    0 <= i < |members| && !members[i].forfeited
  }

  ghost predicate IsIn(members: seq<MemberValue>, id: string) {
    exists i :: StillIn(members, i) && members[i].id == id
  }

  lemma EligibleIffIn(members: seq<MemberValue>, id: string)
    ensures id in EligibleIds(members) <==> IsIn(members, id)
  {
    InEligible(members, id);
    if i :| 0 <= i < |members| && members[i].id == id && !members[i].forfeited {
      assert StillIn(members, i);
    }
  }

  lemma ActiveIffIn(members: seq<MemberValue>, id: string)
    requires UniqueIds(members)
    ensures IsActiveMember(members, id) <==> IsIn(members, id)
    ensures IsActiveMember(members, id) ==> StillIn(members, MemberSeat(members, id))
  {
    var i := MemberSeat(members, id);
    if j :| StillIn(members, j) && members[j].id == id {
      assert i <= j;
      assert i == j;
    }
    if IsActiveMember(members, id) {
      assert StillIn(members, i);
    }
  }

  // ---------------------------------------------------------------- proposing and voting

  /** A proposal is accepted exactly from a player of a running game in which none is pending. Everybody still in is
      asked, and the proposer has agreed. */
  lemma ProposeResult(r: RoomValue, kind: string, id: string)
    requires RoomOk(r)
    ensures Propose(r, kind, id).Some? <==> Running(r.game) && IsIn(r.members, id) && r.proposal.None?
    ensures Propose(r, kind, id).Some? ==>
              var t := Propose(r, kind, id).value;
              && t.proposal.Some? && t == r.(proposal := t.proposal) && t.proposal.value.kind == kind
              && t.proposal.value.proposer == id && t.proposal.value.agreed == {id}
              && forall x :: x in t.proposal.value.eligible <==> IsIn(r.members, x)
  {
    hide Inv, IsActiveMember, EligibleIds, IsIn;
    MembersAreUnique(r);
    ActiveIffIn(r.members, id);
    forall x
      ensures x in EligibleIds(r.members) <==> IsIn(r.members, x)
    {
      EligibleIffIn(r.members, x);
    }
  }

  /** Everybody still in has agreed, or does so now. */
  ghost predicate AllAgree(members: seq<MemberValue>, agreed: set<string>) {
    forall i :: StillIn(members, i) ==> members[i].id in agreed
  }

  lemma UnanimousIff(members: seq<MemberValue>, p: ProposalValue, id: string)
    requires p.eligible == EligibleIds(members) && id in p.eligible
    ensures Unanimous(p) <==> AllAgree(members, p.agreed)
  {
    hide EligibleIds, IsIn;
    if AllAgree(members, p.agreed) {
      forall i | 0 <= i < |p.eligible|
        ensures p.eligible[i] in p.agreed
      {
        EligibleIffIn(members, p.eligible[i]);
        InAndAgreed(members, p.eligible[i], p.agreed);
      }
    }
    if Unanimous(p) {
      forall i | StillIn(members, i)
        ensures members[i].id in p.agreed
      {
        IsInAt(members, i);
        EligibleIffIn(members, members[i].id);
        var k :| 0 <= k < |p.eligible| && p.eligible[k] == members[i].id;
      }
    }
  }

  lemma IsInAt(members: seq<MemberValue>, i: int)
    requires StillIn(members, i)
    ensures IsIn(members, members[i].id)
  {
  }

  lemma InAndAgreed(members: seq<MemberValue>, id: string, agreed: set<string>)
    requires IsIn(members, id) && AllAgree(members, agreed)
    ensures id in agreed
  {
  }

  /** The game is over without a winner, and everything else is as it was. */
  predicate EndedByAgreement(s: State, t: State) {
    && t == s.(phase := GameOver, roundWinnerIndex := -1, turn := t.turn)
    && t.turn == s.turn.(hasDrawn := false, mustUseDiscardDraw := false, discardDrawCard := None)
  }

  /** A vote counts exactly from a player who is still in. A refusal drops the proposal; an approval is noted, and the
      one that makes it unanimous ends the game. */
  lemma VoteResult(r: RoomValue, id: string, approve: bool)
    requires RoomOk(r) && Running(r.game)
    ensures Vote(r, id, approve).Some? <==> r.proposal.Some? && IsIn(r.members, id)
    ensures Vote(r, id, approve).Some? ==>
              var t, p := Vote(r, id, approve).value, r.proposal.value;
              if !approve then t == r.(proposal := None)
              else if AllAgree(r.members, p.agreed + {id}) then
                t == r.(game := t.game, conclusion := EndedBy(p.kind), proposal := None) &&
                EndedByAgreement(r.game, t.game)
              else t == r.(proposal := Some(p.(agreed := p.agreed + {id})))
  {
    hide Inv, EligibleIds, IsIn, Unanimous, AllAgree;
    if r.proposal.Some? {
      EligibleIffIn(r.members, id);
      if id in r.proposal.value.eligible {
        UnanimousIff(r.members, r.proposal.value.(agreed := r.proposal.value.agreed + {id}), id);
      }
    }
  }

  // ---------------------------------------------------------------- leaving

  /** The seat is out and disconnected, the others stay as they were. */
  predicate SeatLeft(before: seq<MemberValue>, after: seq<MemberValue>, i: int) {
    && StillIn(before, i) && |after| == |before| && after[i] == MemberValue(before[i].id, false, true)
    && forall k :: 0 <= k < |before| && k != i ==> after[k] == before[k]
  }

  /** The first in seat order who is still in. */
  predicate FirstIn(members: seq<MemberValue>, j: int) {
    StillIn(members, j) && forall k :: 0 <= k < j ==> members[k].forfeited
  }

  lemma {:induction false} FirstEligible(members: seq<MemberValue>, j: nat)
    requires FirstIn(members, j)
    ensures FirstActiveId(members) == members[j].id && EligibleIds(members) != []
    decreases |members|
  {
    var k := |members| - 1;
    if j < k {
      FirstEligible(members[..k], j);
    } else {
      NobodyBefore(members[..k]);
    }
  }

  lemma {:induction false} NobodyBefore(members: seq<MemberValue>)
    requires forall k :: 0 <= k < |members| ==> members[k].forfeited
    ensures EligibleIds(members) == []
  {
    if members != [] {
      NobodyBefore(members[..|members| - 1]);
    }
  }

  /** Two players at least are still in. */
  ghost predicate TwoIn(members: seq<MemberValue>) {
    exists i, j :: i < j && StillIn(members, i) && StillIn(members, j)
  }

  lemma {:induction false} TwoEligible(members: seq<MemberValue>)
    ensures |EligibleIds(members)| >= 2 <==> TwoIn(members)
    ensures |EligibleIds(members)| >= 1 <==> exists i :: StillIn(members, i)
  {
    if members == [] {
      assert forall i :: !StillIn(members, i);
    } else {
      var k := |members| - 1;
      var front := members[..k];
      TwoEligible(front);
      assert forall i :: StillIn(front, i) <==> i < k && StillIn(members, i);
      assert forall i :: StillIn(members, i) ==> i == k || StillIn(front, i);
      if TwoIn(members) {
        var i, j :| i < j && StillIn(members, i) && StillIn(members, j);
        assert StillIn(front, i);
      }
      if !members[k].forfeited {
        assert StillIn(members, k);
      }
    }
  }

  /** What becomes of a proposal: it goes with its proposer or when fewer than two are left to ask. */
  ghost predicate ProposalAfter(before: Option<ProposalValue>, after: Option<ProposalValue>, id: string,
                                members: seq<MemberValue>) {
    if before.None? || before.value.proposer == id || !TwoIn(members) then after.None?
    else
      && after.Some?
      && after.value == before.value.(agreed := before.value.agreed - {id}, eligible := after.value.eligible)
      && forall x :: x in after.value.eligible <==> IsIn(members, x)
  }

  lemma ProposalStays(r: RoomValue, id: string)
    requires RoomOk(r) && Running(r.game) && IsActiveMember(r.members, id)
    ensures var members := LeaveMembers(r.members, MemberSeat(r.members, id));
            ProposalAfter(r.proposal, RemovePlayer(r.proposal, id), id, members) &&
            (RemovePlayer(r.proposal, id).Some? ==> RemovePlayer(r.proposal, id).value.eligible == EligibleIds(members))
  {
    hide Inv, IsIn, TwoIn;
    var members := LeaveMembers(r.members, MemberSeat(r.members, id));
    MembersAreUnique(r);
    EligibleAfterLeaving(r.members, MemberSeat(r.members, id));
    TwoEligible(members);
    forall x
      ensures x in EligibleIds(members) <==> IsIn(members, x)
    {
      EligibleIffIn(members, x);
    }
  }

  /** How the room stands after player `i` has left it with the game in state `left`. */
  ghost predicate LeftRoom(r: RoomValue, t: RoomValue, i: int, left: State) {
    && SeatLeft(r.members, t.members, i)
    && (r.hostId != r.members[i].id ==> t.hostId == r.hostId)
    && (r.hostId == r.members[i].id ==> forall j :: FirstIn(t.members, j) ==> t.hostId == t.members[j].id)
    && if left.phase == GameOver then
         && t.game == left && t.proposal.None?
         && exists j :: StillIn(t.members, j) && (forall k :: StillIn(t.members, k) ==> k == j) &&
                        t.conclusion == WonByForfeit(t.members[j].id)
       else if r.proposal.Some? && r.proposal.value.proposer != r.members[i].id &&
               AllAgree(t.members, r.proposal.value.agreed) && TwoIn(t.members) then
         && EndedByAgreement(left, t.game) && t.conclusion == EndedBy(r.proposal.value.kind) && t.proposal.None?
       else
         && t.game == left && t.conclusion == r.conclusion
         && ProposalAfter(r.proposal, t.proposal, r.members[i].id, t.members)
  }

  lemma AgreedWithout(members: seq<MemberValue>, agreed: set<string>, id: string)
    requires !IsIn(members, id)
    ensures AllAgree(members, agreed - {id}) <==> AllAgree(members, agreed)
  {
    forall i | StillIn(members, i)
      ensures members[i].id != id
    {
      IsInAt(members, i);
    }
  }

  lemma LeaverIsOut(members: seq<MemberValue>, i: nat)
    requires i < |members| && UniqueIds(members)
    ensures !IsIn(LeaveMembers(members, i), members[i].id)
  {
  }

  lemma LastMember(r: RoomValue, id: string, shuffled: seq<Card>)
    requires RoomOk(r) && Seated(r.game) && IsActiveMember(r.members, id)
    requires Forfeit(r.game, id, shuffled).error.None? && Forfeit(r.game, id, shuffled).state.phase == GameOver
    ensures var left, members := Forfeit(r.game, id, shuffled).state,
                                 LeaveMembers(r.members, MemberSeat(r.members, id));
            var j := left.roundWinnerIndex;
            StillIn(members, j) && (forall k :: StillIn(members, k) ==> k == j) && WinnerId(left) == members[j].id
  {
    hide Inv, Forfeit, DistinctIds;
    SeatedBasics(r.game);
    var i := ForfeitResult(r.game, id, shuffled);
    SameSeat(r.members, r.game.players, id);
    LeftPeople(r, id, shuffled);
    var members := LeaveMembers(r.members, MemberSeat(r.members, id));
    MembersAreUnique(r);
    OneSeat(r.members, i, MemberSeat(r.members, id));
    var left := Forfeit(r.game, id, shuffled).state;
    assert forall k :: StillIn(members, k) <==> k != i && ActiveIn(r.game, k);
  }

  lemma OneSeat(members: seq<MemberValue>, i: int, j: int)
    requires UniqueIds(members) && 0 <= i < |members| && 0 <= j < |members| && members[i].id == members[j].id
    ensures i == j
  {
  }

  /** A member who is still in leaves: who stays, who is host, whether the game ends and for whom. */
  lemma LeaveResult(r: RoomValue, id: string, shuffled: seq<Card>)
    requires RoomOk(r) && Seated(r.game)
    ensures ForfeitGame(r, id, shuffled).Some? <==> Running(r.game) && IsIn(r.members, id)
    ensures ForfeitGame(r, id, shuffled).Some? ==>
              var t, i := ForfeitGame(r, id, shuffled).value, MemberSeat(r.members, id);
              i < |r.members| && r.members[i].id == id &&
              LeftRoom(r, t, i, Forfeit(r.game, id, shuffled).state)
  {
    hide Inv, Forfeit, IsIn, RemovePlayer, EligibleIds, Unanimous, AllAgree, TwoIn, FirstActiveId, DistinctIds,
         ProposalAfter, IsActiveMember, WinnerId;
    MembersAreUnique(r);
    ActiveIffIn(r.members, id);
    if IsActiveMember(r.members, id) {
      MayLeave(r, id, shuffled);
      if Running(r.game) {
        Leaving(r, id, shuffled);
      }
    }
  }

  lemma MayLeave(r: RoomValue, id: string, shuffled: seq<Card>)
    requires RoomOk(r) && Seated(r.game) && IsActiveMember(r.members, id)
    ensures Forfeit(r.game, id, shuffled).error.None? <==> Running(r.game)
  {
    hide Inv, Forfeit;
    SameSeat(r.members, r.game.players, id);
    SeatedBasics(r.game);
    ForfeitIff(r.game, id, shuffled);
    assert ActiveIn(r.game, MemberSeat(r.members, id));
  }

  lemma Leaving(r: RoomValue, id: string, shuffled: seq<Card>)
    requires RoomOk(r) && Seated(r.game) && IsActiveMember(r.members, id) && Running(r.game)
    requires Forfeit(r.game, id, shuffled).error.None?
    ensures var t := ForfeitGame(r, id, shuffled);
            t.Some? && LeftRoom(r, t.value, MemberSeat(r.members, id), Forfeit(r.game, id, shuffled).state)
  {
    hide Inv, Forfeit, IsIn, RemovePlayer, EligibleIds, Unanimous, AllAgree, TwoIn, FirstActiveId, DistinctIds,
         WinnerId;
    var i, left := MemberSeat(r.members, id), Forfeit(r.game, id, shuffled).state;
    var members := LeaveMembers(r.members, i);
    MembersAreUnique(r);
    forall j | FirstIn(members, j)
      ensures FirstActiveId(members) == members[j].id
    {
      FirstEligible(members, j);
    }
    ProposalStays(r, id);
    LeaverIsOut(r.members, i);
    ForfeitPhase(r, id, shuffled);
    if left.phase == GameOver {
      LastMember(r, id, shuffled);
    } else if RemovePlayer(r.proposal, id).Some? {
      var p := RemovePlayer(r.proposal, id).value;
      SomeoneAsked(r.proposal, id);
      UnanimousIff(members, p, p.eligible[0]);
      AgreedWithout(members, r.proposal.value.agreed, id);
    }
  }

  lemma SomeoneAsked(p: Option<ProposalValue>, id: string)
    requires RemovePlayer(p, id).Some?
    ensures p.Some? && RemovePlayer(p, id).value.eligible != []
  {
  }

  lemma ForfeitPhase(r: RoomValue, id: string, shuffled: seq<Card>)
    requires RoomOk(r) && Forfeit(r.game, id, shuffled).error.None?
    ensures Running(Forfeit(r.game, id, shuffled).state) || Forfeit(r.game, id, shuffled).state.phase == GameOver
  {
    hide Inv, Forfeit;
    ForfeitPeople(r.game, id, shuffled);
  }
}
