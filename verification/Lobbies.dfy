/** Lobby commands as transactions (lockMutation in lobby_transaction.go, persistLocked in lobby_server.go):
    a command that is not saved leaves the lobby as it was, although it has already changed objects in place. */
module Lobbies {
  import opened Cards
  import opened GameModel
  import opened GameInvariants
  import opened GameStates
  import opened Rooms
  import opened RoomObjects
  import opened Outbox

  datatype SessionValue = SessionValue(playerId: string, roomCode: string)

  datatype LobbyValue = LobbyValue(sessions: map<string, SessionValue>, rooms: map<string, RoomValue>,
                                   pending: map<string, Record>)

  class Session {
    var playerId: string
    var roomCode: string

    constructor (v: SessionValue)
      ensures Value() == v
    {
      playerId, roomCode := v.playerId, v.roomCode;
    }

    function Value(): SessionValue
      reads this
    {
      SessionValue(playerId, roomCode)
    }
  }

  /** Sessions and rooms are made of `objects`; no object belongs to two of them. */
  ghost predicate Apart(sessions: map<string, Session>, rooms: map<string, Room>, objects: set<object>)
    reads objects
  {
    && RoomsApart(rooms, objects) && SessionsApart(sessions, objects)
    && forall j, k :: j in sessions && k in rooms ==> sessions[j] !in rooms[k].Repr
  }

  ghost predicate SessionsApart(sessions: map<string, Session>, objects: set<object>) {
    && (forall k :: k in sessions ==> sessions[k] in objects)
    && forall j, k :: j in sessions && k in sessions && j != k ==> sessions[j] != sessions[k]
  }

  ghost predicate RoomsApart(rooms: map<string, Room>, objects: set<object>)
    reads objects
  {
    && (forall k :: k in rooms ==>
          rooms[k] in objects && rooms[k] in rooms[k].Repr && rooms[k].Repr <= objects && rooms[k].Valid())
    && forall j, k :: j in rooms && k in rooms && j != k ==> rooms[j].Repr !! rooms[k].Repr
  }

  ghost function RoomValues(rooms: map<string, Room>, objects: set<object>): (r: map<string, RoomValue>)
    requires RoomsApart(rooms, objects)
    reads objects
    ensures r.Keys == rooms.Keys && forall k :: k in rooms ==> r[k] == rooms[k].Value()
  {
    map k | k in rooms :: rooms[k].Value()
  }

  ghost function SessionValues(sessions: map<string, Session>, objects: set<object>): (r: map<string, SessionValue>)
    requires SessionsApart(sessions, objects)
    reads objects
    ensures r.Keys == sessions.Keys && forall k :: k in sessions ==> r[k] == sessions[k].Value()
  {
    map k | k in sessions :: sessions[k].Value()
  }

  ghost function LobbyOf(sessions: map<string, Session>, rooms: map<string, Room>, pending: map<string, Record>,
                         objects: set<object>): LobbyValue
    requires Apart(sessions, rooms, objects)
    reads objects
  {
    LobbyValue(SessionValues(sessions, objects), RoomValues(rooms, objects), pending)
  }

  // ---------------------------------------------------------------- commands on values

  /** The session exists and its player sits in its room. */
  predicate AtTable(l: LobbyValue, sessionId: string) {
    && sessionId in l.sessions && l.sessions[sessionId].roomCode in l.rooms
    && var members := l.rooms[l.sessions[sessionId].roomCode].members;
       MemberSeat(members, l.sessions[sessionId].playerId) < |members|
  }

  /** A vote on its way to the voter's room. */
  function Voted(l: LobbyValue, sessionId: string, approve: bool): Option<LobbyValue> {
    if !AtTable(l, sessionId) then None
    else
      var code := l.sessions[sessionId].roomCode;
      var r := Rooms.Vote(l.rooms[code], l.sessions[sessionId].playerId, approve);
      if r.None? then None else Some(l.(rooms := l.rooms[code := r.value]))
  }

  /** The room's game is in order, and `shuffled` is what the shuffle would make of its draw pile. */
  ghost predicate MayForfeit(l: LobbyValue, sessionId: string, shuffled: seq<Card>) {
    AtTable(l, sessionId) ==>
      var r := l.rooms[l.sessions[sessionId].roomCode];
      Seated(r.game) && Shuffles(r, l.sessions[sessionId].playerId, shuffled)
  }

  /** A player leaves the game, and the session its room. */
  ghost function Forfeited(l: LobbyValue, sessionId: string, shuffled: seq<Card>): Option<LobbyValue>
    requires MayForfeit(l, sessionId, shuffled)
  {
    if !AtTable(l, sessionId) then None
    else
      var code := l.sessions[sessionId].roomCode;
      var r := Rooms.ForfeitGame(l.rooms[code], l.sessions[sessionId].playerId, shuffled);
      if r.None? then None else Some(WithoutRoom(l.(rooms := l.rooms[code := r.value]), sessionId))
  }

  function WithoutRoom(l: LobbyValue, sessionId: string): LobbyValue
    requires sessionId in l.sessions
  {
    l.(sessions := l.sessions[sessionId := l.sessions[sessionId].(roomCode := "")])
  }

  // ---------------------------------------------------------------- copies

  datatype Before = Before(sessions: map<string, Session>, rooms: map<string, Room>, pending: map<string, Record>)

  method CloneSessions(sessions: map<string, Session>, ghost objects: set<object>)
    returns (copies: map<string, Session>, ghost copied: set<object>)
    requires SessionsApart(sessions, objects)
    ensures SessionsApart(copies, copied) && fresh(copied)
    ensures SessionValues(copies, copied) == old(SessionValues(sessions, objects))
  {
    copies, copied := map[], {};
    var left := sessions.Keys;
    while left != {}
      invariant left <= sessions.Keys && copies.Keys == sessions.Keys - left && fresh(copied)
      invariant SessionsApart(copies, copied) && forall k :: k in copies ==> copies[k].Value() == sessions[k].Value()
    {
      var k :| k in left;
      var copy := new Session(sessions[k].Value());
      copies, copied := copies[k := copy], copied + {copy};
      left := left - {k};
    }
  }

  lemma AddRoom(rooms: map<string, Room>, objects: set<object>, code: string, room: Room)
    requires RoomsApart(rooms, objects) && code !in rooms && room.Valid() && room.Repr !! objects && room in room.Repr
    ensures RoomsApart(rooms[code := room], objects + room.Repr)
    ensures RoomValues(rooms[code := room], objects + room.Repr) == RoomValues(rooms, objects)[code := room.Value()]
  {
    hide Room.Valid, Room.Value;
    var next := rooms[code := room];
    assert forall j, k :: j in next && k in next && j != k ==> next[j].Repr !! next[k].Repr;
  }

  method CloneRooms(rooms: map<string, Room>, ghost objects: set<object>) returns (copies: map<string, Room>,
                    ghost copied: set<object>)
    requires RoomsApart(rooms, objects)
    ensures RoomsApart(copies, copied) && fresh(copied) && RoomValues(copies, copied) == old(RoomValues(rooms, objects))
  {
    hide RoomsApart, Room.Valid, Room.Value;
    copies, copied := map[], {};
    NoRooms();
    var left := rooms.Keys;
    while left != {}
      invariant left <= rooms.Keys && copies.Keys == rooms.Keys - left && fresh(copied)
      invariant RoomsApart(copies, copied)
      invariant forall k :: k in copies ==> RoomValues(copies, copied)[k] == RoomValues(rooms, objects)[k]
    {
      var k :| k in left;
      RoomIsValid(rooms, objects, k);
      var copy := rooms[k].Clone();
      InItself(copy);
      AddRoom(copies, copied, k, copy);
      copies, copied := copies[k := copy], copied + copy.Repr;
      left := left - {k};
    }
  }

  lemma NoRooms()
    ensures RoomsApart(map[], {})
  {
  }

  lemma RoomIsValid(rooms: map<string, Room>, objects: set<object>, code: string)
    requires RoomsApart(rooms, objects) && code in rooms
    ensures rooms[code].Valid() && rooms[code].Repr <= objects &&
            RoomValues(rooms, objects)[code] == rooms[code].Value()
  {
    hide Room.Valid, Room.Value;
  }

  lemma InItself(room: Room)
    requires room.Valid()
    ensures room in room.Repr
  {
  }

  /** Copies of sessions and of rooms have no object in common, being made of different new objects. */
  lemma CopiesApart(sessions: map<string, Session>, s: set<object>, rooms: map<string, Room>, r: set<object>,
                    pending: map<string, Record>)
    requires SessionsApart(sessions, s) && RoomsApart(rooms, r) && s !! r
    ensures Apart(sessions, rooms, s + r)
    ensures LobbyOf(sessions, rooms, pending, s + r) ==
            LobbyValue(SessionValues(sessions, s), RoomValues(rooms, r), pending)
  {
    hide Room.Valid, Room.Value;
  }

  lemma LobbyParts(sessions: map<string, Session>, rooms: map<string, Room>, pending: map<string, Record>,
                   objects: set<object>)
    requires Apart(sessions, rooms, objects)
    ensures RoomsApart(rooms, objects) && SessionsApart(sessions, objects)
    ensures LobbyOf(sessions, rooms, pending, objects) ==
            LobbyValue(SessionValues(sessions, objects), RoomValues(rooms, objects), pending)
  {
    hide RoomsApart, Room.Valid, Room.Value;
  }

  /** One room has taken in new objects. */
  lemma OneRoomGrew(sessions: map<string, Session>, rooms: map<string, Room>, objects: set<object>, code: string,
                    reprs: map<string, set<object>>)
    requires reprs.Keys == rooms.Keys && code in rooms && SessionsApart(sessions, objects)
    requires forall k :: k in rooms ==>
               rooms[k] in objects && rooms[k] in reprs[k] && reprs[k] <= objects && rooms[k].Valid()
    requires forall j, k :: j in rooms && k in rooms && j != k ==> reprs[j] !! reprs[k]
    requires forall j, k :: j in sessions && k in rooms ==> sessions[j] !in reprs[k]
    requires forall k :: k in rooms && k != code ==> rooms[k].Repr == reprs[k]
    requires rooms[code].Repr >= reprs[code] && (rooms[code].Repr - reprs[code]) !! objects
    ensures Apart(sessions, rooms, objects + rooms[code].Repr)
  {
    hide Room.Valid;
    forall k | k in rooms && k != code
      ensures rooms[k].Repr !! rooms[code].Repr
    {
    }
  }

  /** A lobby that differs from `l` in one room at most. */
  lemma LobbyWith(sessions: map<string, Session>, rooms: map<string, Room>, pending: map<string, Record>,
                  objects: set<object>, l: LobbyValue, code: string)
    requires Apart(sessions, rooms, objects) && code in rooms && l.pending == pending
    requires l.sessions.Keys == sessions.Keys && forall k :: k in sessions ==> sessions[k].Value() == l.sessions[k]
    requires l.rooms.Keys == rooms.Keys && forall k :: k in rooms && k != code ==> rooms[k].Value() == l.rooms[k]
    ensures LobbyOf(sessions, rooms, pending, objects) == l.(rooms := l.rooms[code := rooms[code].Value()])
  {
    hide Room.Valid, Room.Value;
    assert RoomValues(rooms, objects) == l.rooms[code := rooms[code].Value()];
    assert SessionValues(sessions, objects) == l.sessions;
  }

  /** A lobby that differs from `l` in one session at most. */
  lemma LobbyWithSession(sessions: map<string, Session>, rooms: map<string, Room>, pending: map<string, Record>,
                         objects: set<object>, l: LobbyValue, id: string)
    requires Apart(sessions, rooms, objects) && id in sessions && l.pending == pending
    requires l.sessions.Keys == sessions.Keys && forall k :: k in sessions && k != id ==>
               sessions[k].Value() == l.sessions[k]
    requires l.rooms.Keys == rooms.Keys && forall k :: k in rooms ==> rooms[k].Value() == l.rooms[k]
    ensures LobbyOf(sessions, rooms, pending, objects) == l.(sessions := l.sessions[id := sessions[id].Value()])
  {
    hide Room.Valid, Room.Value;
    assert SessionValues(sessions, objects) == l.sessions[id := sessions[id].Value()];
    assert RoomValues(rooms, objects) == l.rooms;
  }

  class LobbyServer {
    var sessions: map<string, Session>
    var rooms: map<string, Room>
    var pending: map<string, Record>
    var mutationBefore: Option<Before>
    ghost var saved: LobbyValue
    ghost var objects: set<object>
    ghost var objectsBefore: set<object>

    ghost predicate Valid()
      reads this, objects
    {
      Apart(sessions, rooms, objects) && this !in objects
    }

    ghost function Value(): LobbyValue
      requires Valid()
      reads this, objects
    {
      LobbyOf(sessions, rooms, pending, objects)
    }

    /** The copy made when the command began, out of reach of what it changes. */
    ghost predicate Guarded()
      reads this, objectsBefore
    {
      mutationBefore.Some? && this !in objectsBefore &&
      Apart(mutationBefore.value.sessions, mutationBefore.value.rooms, objectsBefore)
    }

    ghost function BeforeValue(): LobbyValue
      requires Guarded()
      reads this, objectsBefore
    {
      LobbyOf(mutationBefore.value.sessions, mutationBefore.value.rooms, mutationBefore.value.pending, objectsBefore)
    }

    method CopyLobby() returns (copy: Before, ghost copied: set<object>)
      requires Valid()
      ensures Apart(copy.sessions, copy.rooms, copied) && fresh(copied)
      ensures LobbyOf(copy.sessions, copy.rooms, copy.pending, copied) == old(Value())
    {
      hide Apart, RoomsApart, SessionsApart, LobbyOf, SessionValues, RoomValues;
      LobbyParts(sessions, rooms, pending, objects);
      var sessionCopies, roomCopies;
      ghost var s, r;
      ghost var sessionValues, roomValues := SessionValues(sessions, objects), RoomValues(rooms, objects);
      sessionCopies, s := CloneSessions(sessions, objects);
      assert RoomsApart(rooms, objects) && RoomValues(rooms, objects) == roomValues;
      roomCopies, r := CloneRooms(rooms, objects);
      assert SessionValues(sessionCopies, s) == sessionValues;
      CopiesApart(sessionCopies, s, roomCopies, r, pending);
      copy, copied := Before(sessionCopies, roomCopies, pending), s + r;
    }

    /** Copy everything a command may change. */
    method LockMutation()
      requires Valid()
      modifies this`mutationBefore, this`objectsBefore
      ensures Valid() && Guarded() && fresh(objectsBefore) && BeforeValue() == old(Value()) && Value() == old(Value())
    {
      hide Apart, LobbyOf;
      var copy;
      ghost var copied;
      copy, copied := CopyLobby();
      mutationBefore, objectsBefore := Some(copy), copied;
    }

    /** Show other sessions, rooms and pending records. */
    method Show(next: Before, ghost nextObjects: set<object>)
      requires Apart(next.sessions, next.rooms, nextObjects) && this !in nextObjects
      modifies this`sessions, this`rooms, this`pending, this`objects
      ensures Valid() && sessions == next.sessions && rooms == next.rooms && pending == next.pending &&
              objects == nextObjects
      ensures Value() == old(LobbyOf(next.sessions, next.rooms, next.pending, nextObjects))
    {
      hide Apart, LobbyOf;
      sessions, rooms, pending := next.sessions, next.rooms, next.pending;
      objects := nextObjects;
    }

    /** An exit that was not saved puts the copies back. */
    method Unlock()
      requires if mutationBefore.Some? then Guarded() else Valid()
      modifies this`sessions, this`rooms, this`pending, this`mutationBefore, this`objects
      ensures Valid() && mutationBefore.None?
      ensures Value() == if old(mutationBefore).Some? then old(BeforeValue()) else old(Value())
    {
      hide Apart, LobbyOf;
      if mutationBefore.Some? {
        Show(mutationBefore.value, objectsBefore);
      }
      mutationBefore := None;
    }

    /** Save the changed lobby while showing the unchanged one; commit only if the save succeeds.
        `seen` is what readers admitted during the save find. */
    method Persist(write: Write) returns (ok: bool, ghost seen: LobbyValue)
      requires Valid() && Guarded()
      modifies this`sessions, this`rooms, this`pending, this`mutationBefore, this`objects, this`saved
      ensures ok <==> write == Ok
      ensures seen == old(BeforeValue())
      ensures saved == if write == FailedBefore then old(saved) else old(Value())
      ensures ok ==> mutationBefore.None? && Valid() && Value() == old(Value())
      ensures !ok ==> Guarded() && BeforeValue() == old(BeforeValue())
    {
      hide Apart, LobbyOf;
      ghost var snapshot := Value();
      var tentative := Before(sessions, rooms, pending);
      ghost var changed := objects;
      Show(mutationBefore.value, objectsBefore);
      seen := Value();
      ok := write == Ok;
      if write != FailedBefore {
        saved := snapshot;
      }
      if !ok {
        return;
      }
      Show(tentative, changed);
      mutationBefore := None;
    }

    // -------------------------------------------------------------- commands

    /** The session's room, if it has one the player sits in; otherwise the session forgets it. */
    method SessionRoom(sessionId: string) returns (found: bool)
      requires Valid() && sessionId in sessions
      modifies sessions[sessionId]
      ensures Valid() && (found <==> AtTable(old(Value()), sessionId))
      ensures Value() == if found then old(Value()) else WithoutRoom(old(Value()), sessionId)
    {
      hide Room.Valid, Room.Value, RoomsApart;
      var session := sessions[sessionId];
      if session.roomCode in rooms {
        RoomIsValid(rooms, objects, session.roomCode);
        rooms[session.roomCode].Shown();
        var seat := rooms[session.roomCode].FindMember(session.playerId);
        if seat >= 0 {
          return true;
        }
      }
      LeaveRoom(sessionId);
      return false;
    }

    method LeaveRoom(sessionId: string)
      requires Valid() && sessionId in sessions
      modifies sessions[sessionId]
      ensures Valid() && Value() == WithoutRoom(old(Value()), sessionId)
    {
      hide Room.Valid, Room.Value;
      ghost var l := Value();
      sessions[sessionId].roomCode := "";
      LobbyWithSession(sessions, rooms, pending, objects, l, sessionId);
    }

    /** A vote in one room leaves the others alone. */
    method VoteInRoom(code: string, playerId: string, approve: bool) returns (ok: bool)
      requires Valid() && code in rooms
      modifies rooms[code].Repr
      ensures Valid()
      ensures ok <==> Rooms.Vote(old(Value()).rooms[code], playerId, approve).Some?
      ensures ok ==>
                var l := old(Value()); var r := Rooms.Vote(l.rooms[code], playerId, approve).value;
                Value() == l.(rooms := l.rooms[code := r])
    {
      hide Room.Valid, Room.Value, Rooms.Vote;
      ghost var l := Value();
      ok := rooms[code].Vote(playerId, approve);
      LobbyWith(sessions, rooms, pending, objects, l, code);
    }

    /** A forfeit in one room leaves the others alone. */
    method ForfeitInRoom(code: string, playerId: string, shuffled: seq<Card>) returns (ok: bool)
      requires Valid() && code in rooms
      requires var r := Value().rooms[code]; Seated(r.game) && Shuffles(r, playerId, shuffled)
      modifies this`objects, rooms[code].Repr
      ensures Valid() && objects >= old(objects) && fresh(objects - old(objects))
      ensures ok <==> Rooms.ForfeitGame(old(Value()).rooms[code], playerId, shuffled).Some?
      ensures ok ==>
                var l := old(Value()); var r := Rooms.ForfeitGame(l.rooms[code], playerId, shuffled).value;
                Value() == l.(rooms := l.rooms[code := r])
    {
      hide Room.Valid, Room.Value, Rooms.ForfeitGame, Seated, Shuffles;
      ghost var l, reprs := Value(), map k | k in rooms :: rooms[k].Repr;
      ok := rooms[code].ForfeitGame(playerId, shuffled);
      OneRoomGrew(sessions, rooms, objects, code, reprs);
      objects := objects + rooms[code].Repr;
      LobbyWith(sessions, rooms, pending, objects, l, code);
    }

    /** Find the session and its room, and vote there. */
    method CastVote(sessionId: string, approve: bool) returns (ok: bool)
      requires Valid() && Guarded() && objectsBefore !! objects
      modifies objects
      ensures Valid() && Guarded() && BeforeValue() == old(BeforeValue())
      ensures ok <==> Voted(old(Value()), sessionId, approve).Some?
      ensures ok ==> Value() == Voted(old(Value()), sessionId, approve).value
    {
      hide Apart, LobbyOf, Rooms.Vote;
      InReach();
      if sessionId !in sessions {
        return false;
      }
      var found := SessionRoom(sessionId);
      if !found {
        return false;
      }
      InReach();
      var session := sessions[sessionId];
      ok := VoteInRoom(session.roomCode, session.playerId, approve);
    }

    /** The command behind a vote: a missing session or room, a refused vote and a failed save all leave the
        lobby as it was. */
    method VoteEndGame(sessionId: string, approve: bool, write: Write) returns (ok: bool, ghost seen: LobbyValue)
      requires Valid() && mutationBefore.None?
      modifies this, objects
      ensures Valid() && mutationBefore.None? && seen == old(Value())
      ensures ok <==> write == Ok && Voted(old(Value()), sessionId, approve).Some?
      ensures ok ==> Value() == Voted(old(Value()), sessionId, approve).value && saved == Value()
      ensures !ok ==> Value() == old(Value())
    {
      hide Apart, LobbyOf, Voted;
      seen := Value();
      LockMutation();
      var voted := CastVote(sessionId, approve);
      if !voted {
        Unlock();
        return false, seen;
      }
      ok, seen := Persist(write);
      Unlock();
    }

    /** Find the session and its room, and let the player leave the game there. */
    method LeaveGame(sessionId: string, shuffled: seq<Card>) returns (ok: bool)
      requires Valid() && Guarded() && objectsBefore !! objects && MayForfeit(Value(), sessionId, shuffled)
      modifies this`objects, objects
      ensures Valid() && Guarded() && BeforeValue() == old(BeforeValue())
      ensures ok <==> Forfeited(old(Value()), sessionId, shuffled).Some?
      ensures ok ==> Value() == Forfeited(old(Value()), sessionId, shuffled).value
    {
      hide Apart, LobbyOf, Rooms.ForfeitGame, Seated, Shuffles;
      InReach();
      if sessionId !in sessions {
        return false;
      }
      var found := SessionRoom(sessionId);
      if !found {
        return false;
      }
      InReach();
      var session := sessions[sessionId];
      ok := ForfeitInRoom(session.roomCode, session.playerId, shuffled);
      if ok {
        LeaveRoom(sessionId);
      }
    }

    /** The command behind a forfeit. It reaches the session, the member, the host, the proposal, the players with
        their hands and the draw pile, and still leaves no trace unless it is saved. */
    method ForfeitGame(sessionId: string, shuffled: seq<Card>, write: Write) returns (ok: bool, ghost seen: LobbyValue)
      requires Valid() && mutationBefore.None? && MayForfeit(Value(), sessionId, shuffled)
      modifies this, objects
      ensures Valid() && mutationBefore.None? && seen == old(Value())
      ensures ok <==> write == Ok && Forfeited(old(Value()), sessionId, shuffled).Some?
      ensures ok ==> Value() == Forfeited(old(Value()), sessionId, shuffled).value && saved == Value()
      ensures !ok ==> Value() == old(Value())
    {
      hide Apart, LobbyOf, Forfeited, MayForfeit;
      seen := Value();
      LockMutation();
      var left := LeaveGame(sessionId, shuffled);
      if !left {
        Unlock();
        return false, seen;
      }
      ok, seen := Persist(write);
      Unlock();
    }

    lemma InReach()
      requires Valid()
      ensures forall k :: k in sessions ==> sessions[k] in objects
      ensures forall k :: k in rooms ==> rooms[k].Repr <= objects && rooms[k] in objects
      ensures Value().sessions.Keys == sessions.Keys && forall k :: k in sessions ==>
                Value().sessions[k] == sessions[k].Value()
      ensures Value().rooms.Keys == rooms.Keys
    {
      hide Room.Valid, Room.Value;
    }
  }
}
