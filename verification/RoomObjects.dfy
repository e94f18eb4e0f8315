/** The mutable room of lobby_server.go and the copy a transaction keeps of it (lobby_transaction.go). */
module RoomObjects {
  import opened Cards
  import opened Rotation
  import opened RoundScoring
  import opened GameModel
  import opened GameInvariants
  import opened GameRounds
  import opened GameRuns
  import opened GameStates
  import D = Dealing
  import opened Rooms

  class Member {
    var id: string
    var connected: bool
    var forfeited: bool

    constructor (v: MemberValue)
      ensures Value() == v
    {
      id, connected, forfeited := v.id, v.connected, v.forfeited;
    }

    function Value(): MemberValue
      reads this
    {
      MemberValue(id, connected, forfeited)
    }
  }

  function ValuesOf(members: seq<Member>): (r: seq<MemberValue>)
    reads members
    ensures |r| == |members| && forall i :: 0 <= i < |r| ==> r[i] == members[i].Value()
  {
    if members == [] then [] else ValuesOf(members[..|members| - 1]) + [members[|members| - 1].Value()]
  }

  class Proposal {
    var kind: string
    var proposer: string
    var eligible: seq<string>
    var agreed: set<string>

    constructor (v: ProposalValue)
      ensures Value() == v
    {
      kind, proposer, eligible, agreed := v.kind, v.proposer, v.eligible, v.agreed;
    }

    function Value(): ProposalValue
      reads this
    {
      ProposalValue(kind, proposer, eligible, agreed)
    }

    method UnanimouslyApproved() returns (r: bool)
      ensures r <==> Unanimous(Value())
    {
      if |eligible| == 0 {
        return false;
      }
      for i := 0 to |eligible|
        invariant forall j :: 0 <= j < i ==> eligible[j] in agreed
      {
        if eligible[i] !in agreed {
          return false;
        }
      }
      return true;
    }
  }

  class Room {
    var members: seq<Member>
    var hostId: string
    var game: GameState
    var endProposal: Proposal?
    var conclusion: Conclusion
    ghost var Repr: set<object>

    /** The room is made of its game, its members and its proposal, which have no object in common. */
    ghost predicate Valid()
      reads this, Repr
    {
      && this in Repr && game in Repr && game.Repr() <= Repr && this !in game.Repr() && game.Valid()
      && (endProposal != null ==> endProposal in Repr && endProposal !in game.Repr())
      && (forall i :: 0 <= i < |members| ==> members[i] in Repr && members[i] !in game.Repr())
      && (forall i, j :: 0 <= i < j < |members| ==> members[i] != members[j])
    }

    ghost function MemberValues(): (r: seq<MemberValue>)
      requires Valid()
      reads this, Repr
      ensures |r| == |members| && forall i :: 0 <= i < |r| ==> r[i] == members[i].Value()
    {
      ValuesOf(members)
    }

    ghost function ProposalValue(): Option<ProposalValue>
      requires Valid()
      reads this, Repr
    {
      if endProposal == null then None else Some(endProposal.Value())
    }

    ghost function Value(): RoomValue
      requires Valid()
      reads this, Repr
    {
      RoomValue(MemberValues(), hostId, game.Value(), ProposalValue(), conclusion)
    }

    lemma Shown()
      requires Valid()
      ensures Value().members == MemberValues() && |MemberValues()| == |members| && Value().game == game.Value()
    {
      hide ValuesOf, GameState.Valid, GameState.Value;
    }

    constructor (members: seq<Member>, hostId: string, game: GameState, endProposal: Proposal?, conclusion: Conclusion)
      requires game.Valid() && forall i, j :: 0 <= i < j < |members| ==> members[i] != members[j]
      requires (forall m :: m in members ==> m !in game.Repr()) && (endProposal != null ==> endProposal !in game.Repr())
      ensures Valid() && this.members == members && this.hostId == hostId && this.game == game &&
              this.endProposal == endProposal
      ensures this.conclusion == conclusion
      ensures Repr ==
              {this} + game.Repr() + (set m | m in members) +
              (if endProposal == null then {} else {endProposal as object})
    {
      this.members, this.hostId, this.game, this.endProposal, this.conclusion :=
        members, hostId, game, endProposal, conclusion;
      Repr := {this} + game.Repr() + (set m | m in members) +
              (if endProposal == null then {} else {endProposal as object});
    }

    method CloneMembers() returns (copies: seq<Member>)
      requires Valid()
      ensures |copies| == |members| && forall i :: 0 <= i < |copies| ==> copies[i].Value() == members[i].Value()
      ensures forall m :: m in copies ==> fresh(m)
      ensures forall i, j :: 0 <= i < j < |copies| ==> copies[i] != copies[j]
    {
      copies := [];
      for i := 0 to |members|
        invariant |copies| == i && forall k :: 0 <= k < i ==> copies[k].Value() == members[k].Value()
        invariant forall m :: m in copies ==> fresh(m)
        invariant forall j, k :: 0 <= j < k < i ==> copies[j] != copies[k]
      {
        var copy := new Member(members[i].Value());
        copies := copies + [copy];
      }
    }

    method CloneProposal() returns (copy: Proposal?)
      requires Valid()
      ensures copy != null ==> fresh(copy)
      ensures old(ProposalValue()) == if copy == null then None else Some(copy.Value())
    {
      hide ValuesOf, GameState.Valid, GameState.Value, Member.Value, Proposal.Value;
      copy := null;
      if endProposal != null {
        copy := new Proposal(endProposal.Value());
      }
    }

    /** A copy with the same value and no object in common. */
    method Clone() returns (copy: Room)
      requires Valid()
      ensures copy.Valid() && fresh(copy.Repr) && copy.Value() == old(Value())
    {
      hide ValuesOf, GameState.Valid, GameState.Value, Member.Value, Proposal.Value;
      ghost var r := Value();
      var memberCopies := CloneMembers();
      var proposal := CloneProposal();
      var gameCopy := game.Clone();
      copy := new Room(memberCopies, hostId, gameCopy, proposal, conclusion);
      assert copy.MemberValues() == r.members;
    }

    // -------------------------------------------------------------- one part at a time

    method DropProposal()
      requires Valid()
      modifies this`endProposal
      ensures Valid() && Value() == old(Value()).(proposal := None)
    {
      hide ValuesOf, GameState.Valid, GameState.Value, Member.Value;
      endProposal := null;
      assert MemberValues() == old(MemberValues());
    }

    method Agree(playerId: string)
      requires Valid() && endProposal != null
      modifies endProposal
      ensures Valid()
      ensures var p := old(endProposal.Value());
              Value() == old(Value()).(proposal := Some(p.(agreed := p.agreed + {playerId})))
    {
      hide ValuesOf, GameState.Valid, GameState.Value, Member.Value;
      endProposal.agreed := endProposal.agreed + {playerId};
      assert MemberValues() == old(MemberValues());
    }

    method Conclude(outcome: Conclusion)
      requires Valid()
      modifies this`conclusion, this`endProposal
      ensures Valid() && Value() == old(Value()).(conclusion := outcome, proposal := None)
    {
      hide ValuesOf, GameState.Valid, GameState.Value, Member.Value;
      conclusion, endProposal := outcome, null;
      assert MemberValues() == old(MemberValues());
    }

    method EndGame() returns (error: Option<GameError>)
      requires Valid()
      modifies game
      ensures Valid()
      ensures var r := EndWithoutWinner(old(game.Value()));
              error == r.error && Value() == old(Value()).(game := r.state)
    {
      hide ValuesOf, GameState.Valid, GameState.Value, Member.Value, Proposal.Value, EndWithoutWinner;
      error := game.EndWithoutWinner();
      assert MemberValues() == old(MemberValues());
    }

    method ForfeitInGame(playerId: string, shuffled: seq<Card>) returns (winner: string, error: Option<GameError>)
      requires Valid() && Seated(game.Value()) && Shuffles(Value(), playerId, shuffled)
      modifies this`Repr, game, game.drawPile, game.discardPile, game.people
      ensures Valid() && Repr >= old(Repr) && fresh(Repr - old(Repr))
      ensures var r := Forfeit(old(game.Value()), playerId, shuffled);
              && error == r.error && Value() == old(Value()).(game := r.state)
              && (error.None? ==>
                    (winner != "" <==> r.state.phase == GameOver) && (winner != "" ==> winner == WinnerId(r.state)))
    {
      hide ValuesOf, GameState.Valid, GameState.Value, Member.Value, Proposal.Value, Forfeit, Without, ReportedWinner,
           DistinctIds,
           WinnerId;
      ghost var s := game.Value();
      game.Separate();
      game.Shown();
      SeatedBasics(s);
      winner, error := game.ForfeitPlayer(playerId, shuffled);
      Repr := Repr + game.Repr();
      if error.None? {
        WinnerReported(s, playerId, shuffled);
      }
      assert MemberValues() == old(MemberValues());
    }

    method MemberLeaves(seat: nat)
      requires Valid() && seat < |members|
      modifies members[seat]
      ensures Valid() && Value() == old(Value()).(members := LeaveMembers(old(MemberValues()), seat))
    {
      hide ValuesOf, GameState.Valid, GameState.Value, Proposal.Value;
      members[seat].forfeited, members[seat].connected := true, false;
      assert MemberValues() == LeaveMembers(old(MemberValues()), seat);
    }

    method FindMember(playerId: string) returns (seat: int)
      requires Valid()
      ensures var i := MemberSeat(MemberValues(), playerId); seat == if i < |members| then i else -1
    {
      hide ValuesOf, GameState.Valid, GameState.Value;
      for i := 0 to |members|
        invariant forall j :: 0 <= j < i ==> members[j].id != playerId
      {
        if members[i].id == playerId {
          return i;
        }
      }
      return -1;
    }

    /** The first player still in becomes host. */
    method TransferHostToFirstActive()
      requires Valid()
      modifies this`hostId
      ensures Valid() && Value() == old(Value()).(hostId := FirstActiveId(old(MemberValues())))
    {
      hide ValuesOf, GameState.Valid, GameState.Value, Proposal.Value;
      var first := FirstActive();
      hostId := first;
      assert MemberValues() == old(MemberValues());
    }

    method FirstActive() returns (id: string)
      requires Valid()
      ensures id == FirstActiveId(MemberValues())
    {
      hide ValuesOf, GameState.Valid, GameState.Value;
      ghost var values := MemberValues();
      for i := 0 to |members|
        invariant EligibleIds(values[..i]) == []
      {
        assert values[..i + 1][..i] == values[..i];
        if !members[i].forfeited {
          FirstStays(values, i + 1);
          return members[i].id;
        }
      }
      assert values[..|members|] == values;
      return "";
    }

    method UnanimouslyApproved() returns (r: bool)
      requires Valid()
      ensures r <==> ProposalValue().Some? && Unanimous(ProposalValue().value)
    {
      hide ValuesOf, GameState.Valid, GameState.Value, Unanimous;
      if endProposal == null {
        return false;
      }
      r := endProposal.UnanimouslyApproved();
    }

    // -------------------------------------------------------------- commands

    /** Record a vote. A vote that would end a game that cannot end fails after the vote was noted. */
    method Vote(playerId: string, approve: bool) returns (ok: bool)
      requires Valid()
      modifies Repr
      ensures Valid() && Repr == old(Repr)
      ensures ok <==> Rooms.Vote(old(Value()), playerId, approve).Some?
      ensures ok ==> Value() == Rooms.Vote(old(Value()), playerId, approve).value
    {
      hide ValuesOf, GameState.Valid, GameState.Value, Unanimous, EndWithoutWinner;
      if endProposal == null || playerId !in endProposal.eligible {
        return false;
      }
      if !approve {
        DropProposal();
        return true;
      }
      Agree(playerId);
      var unanimous := UnanimouslyApproved();
      if unanimous {
        var kind := endProposal.kind;
        var error := EndGame();
        if error.Some? {
          return false;
        }
        Conclude(EndedBy(kind));
      }
      return true;
    }

    /** The ids of the list other than one. */
    static method OtherIds(ids: seq<string>, playerId: string) returns (r: seq<string>)
      ensures r == WithoutId(ids, playerId)
    {
      r := [];
      for i := 0 to |ids|
        invariant r == WithoutId(ids[..i], playerId)
      {
        assert ids[..i + 1][..i] == ids[..i];
        if ids[i] != playerId {
          r := r + [ids[i]];
        }
      }
      assert ids[..|ids|] == ids;
    }

    method RemovePlayerFromProposal(playerId: string)
      requires Valid()
      modifies this`endProposal, endProposal
      ensures Valid() && Value() == old(Value()).(proposal := RemovePlayer(old(Value()).proposal, playerId))
    {
      hide ValuesOf, WithoutId, GameState.Valid, GameState.Value;
      if endProposal == null {
        return;
      }
      var next := OtherIds(endProposal.eligible, playerId);
      endProposal.eligible := next;
      endProposal.agreed := endProposal.agreed - {playerId};
      if endProposal.proposer == playerId || |next| < 2 {
        endProposal := null;
      }
      assert MemberValues() == old(MemberValues());
    }

    /** What the room does once its game has let the player at `seat` go. */
    method Departs(seat: nat)
      requires Valid() && seat < |members|
      modifies this`hostId, this`endProposal, members[seat], endProposal
      ensures Valid()
      ensures var r, id := old(Value()), old(members[seat].id); var left := LeaveMembers(r.members, seat);
              Value() == r.(members := left, hostId := if r.hostId == id then FirstActiveId(left) else r.hostId,
                            proposal := RemovePlayer(r.proposal, id))
    {
      hide ValuesOf, GameState.Valid, GameState.Value, RemovePlayer, FirstActiveId;
      var playerId := members[seat].id;
      MemberLeaves(seat);
      if hostId == playerId {
        TransferHostToFirstActive();
      }
      RemovePlayerFromProposal(playerId);
    }

    /** The room's conclusion: a winner was reported, or everyone left has agreed to end. */
    method Settle(winner: string)
      requires Valid()
      modifies this`conclusion, this`endProposal, game
      ensures Valid() && Value() == Settled(old(Value()), winner)
    {
      hide ValuesOf, GameState.Valid, GameState.Value, Unanimous, EndWithoutWinner;
      if winner != "" {
        Conclude(WonByForfeit(winner));
        return;
      }
      var unanimous := UnanimouslyApproved();
      if unanimous {
        var kind := endProposal.kind;
        var _ := EndGame();
        Conclude(EndedBy(kind));
      }
    }

    /** A player leaves the game for good: the game, the member, the host and the proposal change. */
    method ForfeitGame(playerId: string, shuffled: seq<Card>) returns (ok: bool)
      requires Valid() && Seated(Value().game) && Shuffles(Value(), playerId, shuffled)
      modifies Repr
      ensures Valid() && Repr >= old(Repr) && fresh(Repr - old(Repr))
      ensures ok <==> Rooms.ForfeitGame(old(Value()), playerId, shuffled).Some?
      ensures ok ==> Value() == Rooms.ForfeitGame(old(Value()), playerId, shuffled).value
    {
      hide ValuesOf, GameState.Valid, GameState.Value, Forfeit, Rooms.ForfeitGame, RemovePlayer, FirstActiveId,
           WinnerId, DistinctIds,
           Settled;
      var seat := FindMember(playerId);
      if seat < 0 || members[seat].forfeited {
        NotActive(Value(), playerId, shuffled);
        return false;
      }
      ForfeitInParts(Value(), playerId, shuffled);
      var winner, error := ForfeitInGame(playerId, shuffled);
      if error.Some? {
        return false;
      }
      Departs(seat);
      Settle(winner);
      return true;
    }
  }

  ghost function Settled(r: RoomValue, winner: string): RoomValue {
    if winner != "" then r.(conclusion := WonByForfeit(winner), proposal := None)
    else if r.proposal.Some? && Unanimous(r.proposal.value) then
      r.(game := EndWithoutWinner(r.game).state, conclusion := EndedBy(r.proposal.value.kind), proposal := None)
    else r
  }

  lemma NotActive(r: RoomValue, id: string, shuffled: seq<Card>)
    requires Seated(r.game) && !IsActiveMember(r.members, id)
    ensures Rooms.ForfeitGame(r, id, shuffled).None?
  {
    hide Forfeit, DistinctIds;
  }

  lemma ForfeitInParts(r: RoomValue, id: string, shuffled: seq<Card>)
    requires Seated(r.game) && IsActiveMember(r.members, id)
    ensures var left, i := Forfeit(r.game, id, shuffled), MemberSeat(r.members, id);
            if left.error.Some? then Rooms.ForfeitGame(r, id, shuffled).None?
            else
              var members := LeaveMembers(r.members, i);
              var next := r.(game := left.state, members := members,
                             hostId := if r.hostId == id then FirstActiveId(members) else r.hostId,
                             proposal := RemovePlayer(r.proposal, id));
              forall winner ::
                (winner != "" <==> left.state.phase == GameOver) &&
                (winner != "" ==> winner == WinnerId(left.state)) ==>
                  Rooms.ForfeitGame(r, id, shuffled) == Some(Settled(next, winner))
  {
    hide Forfeit, RemovePlayer, FirstActiveId, WinnerId, DistinctIds, EndWithoutWinner, Unanimous;
  }

  lemma {:induction false} FirstStays(members: seq<MemberValue>, i: nat)
    requires 0 < i <= |members| && EligibleIds(members[..i - 1]) == [] && !members[i - 1].forfeited
    ensures EligibleIds(members) != [] && FirstActiveId(members) == members[i - 1].id
    decreases |members|
  {
    if i < |members| {
      var front := members[..|members| - 1];
      assert front[..i - 1] == members[..i - 1];
      FirstStays(front, i);
    } else {
      assert members[..i] == members;
    }
  }

  /** The reported winner is there exactly when the forfeit ended the game. */
  lemma WinnerReported(s: State, id: string, shuffled: seq<Card>)
    requires Seated(s) && Forfeit(s, id, shuffled).error.None?
    ensures var i := SeatOf(s.players, id);
            i < |s.players| &&
            var w, t := ReportedWinner(Without(s, i, shuffled)), Forfeit(s, id, shuffled).state;
            (w != "" <==> t.phase == GameOver) && (w != "" ==> w == WinnerId(t))
  {
    hide NextForfeitOrder, Recorded, NextOf, DistinctIds;
    var i := SeatOf(s.players, id);
    var t := Without(s, i, shuffled);
    forall k | 0 <= k < |s.players|
      ensures t.players[k].id == s.players[k].id
    {
    }
  }
}
