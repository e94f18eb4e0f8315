/** Delivery of finished-game statistics (statisticsJobsLocked, saveStatisticsJobsLocked and persistLocked
    in lobby_server.go, the status guard in database/statistics.go) as a step system in which every write
    may fail before or after it took effect and the process may crash between any two steps. */
module Outbox {
  import opened Cards

  type Game = string
  type User = string

  datatype Kind = Completed | Unranked

  /** A terminal record; `created` counts record creations over the whole history. */
  datatype Record = Record(sequence: nat, game: Game, users: set<User>, kind: Kind, created: nat)

  /** The lobby as far as statistics go: games whose room may still record them, and records to deliver. */
  datatype Version = Version(open: set<Game>, pending: map<Game, Record>)

  /** Games with a terminal status, and the lifetime updates in the order they were made. */
  datatype Database = Database(done: map<Game, Record>, log: seq<Record>)

  datatype Phase = Idle | Delivering(queue: seq<Record>, blocked: set<User>)

  /** `committed` holds every record a successful save has covered. */
  datatype System = System(mem: Version, disk: Version, db: Database, phase: Phase, clock: nat,
                           issued: set<Game>, committed: map<Game, Record>)

  /** How a write ends: done, refused, or done although an error was reported. */
  datatype Write = Ok | FailedBefore | FailedAfter

  // ---------------------------------------------------------------- the database

  /** Only the transition from in-progress to a terminal status has effects. */
  function Saved(db: Database, r: Record): Database {
    if r.game in db.done then db
    else Database(db.done[r.game := r], db.log + if r.kind == Completed then [r] else [])
  }

  function AfterWrite(db: Database, r: Record, w: Write): Database {
    if w == FailedBefore then db else Saved(db, r)
  }

  // ---------------------------------------------------------------- recording finished games

  /** One more than every sequence number in use. */
  ghost predicate NextSequence(pending: map<Game, Record>, n: nat) {
    n >= 1 && (forall g :: g in pending ==> pending[g].sequence < n) &&
    (n > 1 ==> exists g :: g in pending && pending[g].sequence == n - 1)
  }

  datatype Finished = Finished(game: Game, users: set<User>, kind: Kind)

  /** A record is created once per open game; `clock` stamps it. A game without registered players is
      closed without a record. */
  ghost predicate Records(v: Version, f: Finished, clock: nat, v': Version, clock': nat) {
    if f.game !in v.open then v' == v && clock' == clock
    else if f.users == {} then v' == v.(open := v.open - {f.game}) && clock' == clock
    else if f.game in v.pending then v' == v && clock' == clock
    else
      exists n ::
        NextSequence(v.pending, n) && clock' == clock + 1 &&
        v' == v.(pending := v.pending[f.game := Record(n, f.game, f.users, f.kind, clock)])
  }

  /** Finished games are recorded one after the other, in whatever order they are met. */
  ghost predicate RecordsAll(v: Version, finished: seq<Finished>, clock: nat, v': Version, clock': nat) {
    if finished == [] then v' == v && clock' == clock
    else
      var k := |finished| - 1;
      exists u, c :: RecordsAll(v, finished[..k], clock, u, c) && Records(u, finished[k], c, v', clock')
  }

  /** The records to deliver, oldest sequence number first. */
  ghost predicate IsQueue(queue: seq<Record>, pending: map<Game, Record>) {
    && (forall i, j :: 0 <= i < j < |queue| ==> queue[i].sequence < queue[j].sequence)
    && (forall i :: 0 <= i < |queue| ==> queue[i].game in pending && pending[queue[i].game] == queue[i])
    && (forall g :: g in pending ==> pending[g] in queue)
  }

  // ---------------------------------------------------------------- steps

  /** A command opens games, closes rooms, records finished games, and saves. On failure a transactional
      command is rolled back; a disconnect or retry keeps what it recorded in memory. */
  ghost predicate Persists(s: System, started: set<Game>, closed: set<Game>, finished: seq<Finished>,
                           transactional: bool, w: Write, t: System) {
    s.phase.Idle? && started !! s.issued &&
    exists v, c, queue ::
      RecordsAll(Version(s.mem.open + started - closed, s.mem.pending), finished, s.clock, v, c) &&
      IsQueue(queue, v.pending) &&
      t == s.(
        mem := if w == Ok || !transactional then v else s.mem,
        disk := if w == FailedBefore then s.disk else v,
        phase := if w == Ok then Delivering(queue, {}) else Idle,
        clock := c, issued := s.issued + started,
        committed := if w == Ok then s.committed + v.pending else s.committed)
  }

  /** The next record: skipped if one of its players waits for an earlier record, else written. A failed
      write blocks its players; a successful one removes the record and closes the game. */
  ghost predicate Delivers(s: System, w: Write, t: System) {
    s.phase.Delivering? && s.phase.queue != [] &&
    var r, rest := s.phase.queue[0], s.phase.queue[1..];
    if r.users * s.phase.blocked != {} then t == s.(phase := Delivering(rest, s.phase.blocked + r.users))
    else
      t == s.(db := AfterWrite(s.db, r, w),
              mem := if w == Ok then Version(s.mem.open - {r.game}, s.mem.pending - {r.game}) else s.mem,
              phase := Delivering(rest, if w == Ok then s.phase.blocked else s.phase.blocked + r.users))
  }

  /** The second save stores what is left to deliver; its failure is ignored. */
  ghost predicate Finishes(s: System, w: Write, t: System) {
    s.phase.Delivering? && s.phase.queue == [] &&
    t == s.(phase := Idle, disk := if w == FailedBefore then s.disk else s.mem)
  }

  ghost predicate Crashes(s: System, t: System) {
    t == s.(mem := s.disk, phase := Idle)
  }

  ghost predicate Step(s: System, t: System) {
    || (exists started, closed, finished, transactional,
        w :: Persists(s, started, closed, finished, transactional, w, t))
    || (exists w :: Delivers(s, w, t))
    || (exists w :: Finishes(s, w, t))
    || Crashes(s, t)
  }

  const EMPTY := Version({}, map[])

  ghost predicate Run(states: seq<System>) {
    && |states| > 0 && states[0] == System(EMPTY, EMPTY, Database(map[], []), Idle, 0, {}, map[])
    && forall i :: 0 <= i < |states| - 1 ==> Step(states[i], states[i + 1])
  }

  // ---------------------------------------------------------------- what is promised

  predicate SharePlayer(a: Record, b: Record) {
    a.users * b.users != {}
  }

  /** No game's lifetime update is made twice. */
  ghost predicate AppliedOnce(db: Database) {
    forall i, j :: 0 <= i < j < |db.log| ==> db.log[i].game != db.log[j].game
  }

  /** The lifetime updates are those of the completed games, and only those. */
  ghost predicate AppliedIffCompleted(db: Database) {
    && (forall g :: g in db.done ==> (db.done[g] in db.log <==> db.done[g].kind == Completed))
    && (forall i :: 0 <= i < |db.log| ==> db.log[i].game in db.done && db.done[db.log[i].game] == db.log[i])
  }

  /** Each player's games are applied in the order their records were created. */
  ghost predicate InOrder(db: Database) {
    forall i, j :: 0 <= i < j < |db.log| && SharePlayer(db.log[i], db.log[j]) ==> db.log[i].created < db.log[j].created
  }

  /** A committed record has been applied as committed, or is still to be delivered, in memory and on disk. */
  ghost predicate NothingLost(s: System) {
    forall g :: g in s.committed ==>
      || (g in s.db.done && s.db.done[g] == s.committed[g])
      || (g in s.mem.pending && g in s.disk.pending && s.mem.pending[g] == s.disk.pending[g] == s.committed[g])
  }

  ghost predicate Promised(s: System) {
    AppliedOnce(s.db) && AppliedIffCompleted(s.db) && InOrder(s.db) && NothingLost(s)
  }

  // ---------------------------------------------------------------- the invariant

  /** Later records carry larger sequence numbers. */
  ghost predicate Numbered(pending: map<Game, Record>, clock: nat) {
    && (forall g :: g in pending ==> pending[g].game == g && pending[g].created < clock && pending[g].users != {})
    && forall g, h :: g in pending && h in pending && g != h ==>
         pending[g].sequence != pending[h].sequence &&
         (pending[g].sequence < pending[h].sequence <==> pending[g].created < pending[h].created)
  }

  /** A finished game is never recorded again, and its waiting record is the one that was applied. */
  ghost predicate Settled(v: Version, db: Database) {
    forall g :: g in db.done ==> (g in v.open ==> g in v.pending) && (g in v.pending ==> v.pending[g] == db.done[g])
  }

  /** Whatever is still to be applied is younger than everything applied to its players. */
  ghost predicate Younger(v: Version, db: Database) {
    forall g, i :: g in v.pending && g !in db.done && 0 <= i < |db.log| && SharePlayer(db.log[i], v.pending[g]) ==>
      db.log[i].created < v.pending[g].created
  }

  ghost predicate VersionOk(v: Version, s: System) {
    && Numbered(v.pending, s.clock) && Settled(v, s.db) && Younger(v, s.db)
    && v.open <= s.issued && v.pending.Keys <= s.issued
  }

  ghost predicate DatabaseOk(s: System) {
    && AppliedOnce(s.db) && InOrder(s.db) && AppliedIffCompleted(s.db)
    && (forall i :: 0 <= i < |s.db.log| ==> s.db.log[i].created < s.clock)
    && (forall g :: g in s.db.done ==> g in s.issued && s.db.done[g].game == g)
  }

  /** While records are delivered memory holds some of the records on disk; every other record on disk is
      applied, still queued, or waits behind a blocked player. */
  ghost predicate DeliveryOk(s: System) {
    s.phase.Delivering? ==>
      && (forall g :: g in s.mem.pending ==> g in s.disk.pending && s.disk.pending[g] == s.mem.pending[g])
      && (forall i, j :: 0 <= i < j < |s.phase.queue| ==> s.phase.queue[i].sequence < s.phase.queue[j].sequence)
      && (forall i :: 0 <= i < |s.phase.queue| ==>
            s.phase.queue[i].game in s.mem.pending && s.mem.pending[s.phase.queue[i].game] == s.phase.queue[i])
      && (forall g :: g in s.disk.pending ==>
            g in s.db.done || s.disk.pending[g] in s.phase.queue || s.disk.pending[g].users <= s.phase.blocked)
  }

  ghost predicate Inv(s: System) {
    VersionOk(s.mem, s) && VersionOk(s.disk, s) && DatabaseOk(s) && DeliveryOk(s) && NothingLost(s)
  }

  // ---------------------------------------------------------------- recording

  /** What a version looks like to the invariant, without the rest of the system. */
  ghost predicate RecordingOk(v: Version, db: Database, clock: nat) {
    && Numbered(v.pending, clock) && Settled(v, db) && Younger(v, db)
    && forall i :: 0 <= i < |db.log| ==> db.log[i].created < clock
  }

  lemma RecordsKeep(v: Version, f: Finished, clock: nat, v': Version, clock': nat, db: Database)
    requires RecordingOk(v, db, clock) && Records(v, f, clock, v', clock')
    ensures RecordingOk(v', db, clock') && clock <= clock' && v'.open <= v.open &&
            v'.pending.Keys <= v.pending.Keys + v.open
    ensures forall g :: g in v.pending ==> g in v'.pending && v'.pending[g] == v.pending[g]
  {
  }

  lemma {:induction false} RecordsAllKeep(v: Version, finished: seq<Finished>, clock: nat, v': Version, clock': nat,
                                          db: Database)
    requires RecordingOk(v, db, clock) && RecordsAll(v, finished, clock, v', clock')
    ensures RecordingOk(v', db, clock') && clock <= clock' && v'.open <= v.open &&
            v'.pending.Keys <= v.pending.Keys + v.open
    ensures forall g :: g in v.pending ==> g in v'.pending && v'.pending[g] == v.pending[g]
  {
    hide RecordingOk, Records;
    if finished != [] {
      var k := |finished| - 1;
      var u, c :| RecordsAll(v, finished[..k], clock, u, c) && Records(u, finished[k], c, v', clock');
      RecordsAllKeep(v, finished[..k], clock, u, c, db);
      RecordsKeep(u, finished[k], c, v', clock', db);
    }
  }

  // ---------------------------------------------------------------- a save

  lemma MoreTime(v: Version, s: System, t: System)
    requires VersionOk(v, s) && t.db == s.db && s.clock <= t.clock && s.issued <= t.issued
    ensures VersionOk(v, t)
  {
  }

  /** Opening fresh games and closing rooms leaves a version in order. */
  lemma OpenAndClose(v: Version, s: System, started: set<Game>, closed: set<Game>)
    requires VersionOk(v, s) && DatabaseOk(s) && started !! s.issued
    ensures RecordingOk(Version(v.open + started - closed, v.pending), s.db, s.clock)
  {
  }

  lemma QueueCovers(queue: seq<Record>, v: Version, s: System)
    requires IsQueue(queue, v.pending) && s.phase == Delivering(queue, {}) && s.mem == v && s.disk == v
    ensures DeliveryOk(s)
  {
  }

  lemma CommittedStays(s: System, t: System, v: Version)
    requires NothingLost(s) && Settled(v, s.db)
    requires forall g :: g in s.mem.pending ==> g in v.pending && v.pending[g] == s.mem.pending[g]
    requires t.db == s.db && (t.mem == v || t.mem == s.mem) && (t.disk == v || t.disk == s.disk)
    requires t.committed == s.committed || (t.committed == s.committed + v.pending && t.mem == v && t.disk == v)
    ensures NothingLost(t)
  {
  }

  lemma PersistKeeps(s: System, started: set<Game>, closed: set<Game>, finished: seq<Finished>, transactional: bool,
                     w: Write, t: System)
    requires Inv(s) && Persists(s, started, closed, finished, transactional, w, t)
    ensures Inv(t)
  {
    hide RecordsAll, IsQueue, RecordingOk, NothingLost;
    var u := Version(s.mem.open + started - closed, s.mem.pending);
    var v, c, queue :|
      RecordsAll(u, finished, s.clock, v, c) && IsQueue(queue, v.pending) &&
      t == s.(
        mem := if w == Ok || !transactional then v else s.mem,
        disk := if w == FailedBefore then s.disk else v,
        phase := if w == Ok then Delivering(queue, {}) else Idle,
        clock := c, issued := s.issued + started,
        committed := if w == Ok then s.committed + v.pending else s.committed);
    OpenAndClose(s.mem, s, started, closed);
    RecordsAllKeep(u, finished, s.clock, v, c, s.db);
    SavedVersion(v, s, t, started, closed, c);
    MoreTime(s.mem, s, t);
    MoreTime(s.disk, s, t);
    if w == Ok {
      QueueCovers(queue, v, t);
    }
    hide VersionOk;
    CommittedStays(s, t, v);
    DatabaseLater(s, t);
  }

  lemma SavedVersion(v: Version, s: System, t: System, started: set<Game>, closed: set<Game>, clock: nat)
    requires VersionOk(s.mem, s) && RecordingOk(v, s.db, clock) && v.open <= s.mem.open + started - closed
    requires v.pending.Keys <= s.mem.pending.Keys + s.mem.open + started
    requires t.db == s.db && t.clock == clock && t.issued == s.issued + started
    ensures VersionOk(v, t) && Settled(v, s.db)
  {
  }

  lemma DatabaseLater(s: System, t: System)
    requires DatabaseOk(s) && t.db == s.db && s.clock <= t.clock && s.issued <= t.issued
    ensures DatabaseOk(t)
  {
  }

  // ---------------------------------------------------------------- delivering one record

  /** The first record of the queue, when none of its players is blocked, is younger than everything
      already applied to them and older than everything that is still to be. */
  lemma HeadIsNext(s: System)
    requires Inv(s) && s.phase.Delivering? && s.phase.queue != [] && s.phase.queue[0].users * s.phase.blocked == {}
    ensures var r := s.phase.queue[0];
            forall g :: g in s.disk.pending && g != r.game && g !in s.db.done && SharePlayer(r, s.disk.pending[g]) ==>
              r.created < s.disk.pending[g].created
  {
    var r := s.phase.queue[0];
    forall g | g in s.disk.pending && g != r.game && g !in s.db.done && SharePlayer(r, s.disk.pending[g])
      ensures r.created < s.disk.pending[g].created
    {
      var x := s.disk.pending[g];
      var u :| u in r.users * x.users;
      assert u !in r.users * s.phase.blocked;
      assert u in x.users && u !in s.phase.blocked;
      var j :| 0 <= j < |s.phase.queue| && s.phase.queue[j] == x;
      assert j > 0;
    }
  }

  lemma SaveKeepsDatabase(s: System, r: Record, t: System)
    requires DatabaseOk(s) && t.db == Saved(s.db, r) && t.clock == s.clock && t.issued == s.issued
    requires r.game !in s.db.done ==>
               r.game in s.issued && r.created < s.clock &&
               forall i :: 0 <= i < |s.db.log| && SharePlayer(s.db.log[i], r) ==> s.db.log[i].created < r.created
    ensures DatabaseOk(t)
  {
  }

  lemma SaveKeepsVersion(v: Version, s: System, r: Record, t: System)
    requires VersionOk(v, s) && t.db == Saved(s.db, r) && t.clock == s.clock && t.issued == s.issued
    requires r.game in v.pending ==> v.pending[r.game] == r
    requires r.game in v.open ==> r.game in v.pending
    requires forall g :: g in v.pending && g != r.game && g !in s.db.done && SharePlayer(r, v.pending[g]) ==>
               r.created < v.pending[g].created
    ensures VersionOk(v, t)
  {
  }

  lemma DroppedVersion(v: Version, s: System, g: Game)
    requires VersionOk(v, s)
    ensures VersionOk(Version(v.open - {g}, v.pending - {g}), s)
  {
  }

  /** The state after the write, before the queue moves on. */
  ghost function Written(s: System, w: Write): System
    requires s.phase.Delivering? && s.phase.queue != []
  {
    s.(db := AfterWrite(s.db, s.phase.queue[0], w))
  }

  lemma WrittenOk(s: System, w: Write)
    requires Inv(s) && s.phase.Delivering? && s.phase.queue != [] && s.phase.queue[0].users * s.phase.blocked == {}
    ensures var t := Written(s, w); VersionOk(t.mem, t) && VersionOk(t.disk, t) && DatabaseOk(t)
  {
    if w != FailedBefore {
      var r := s.phase.queue[0];
      HeadIsNext(s);
      hide Saved;
      SaveKeepsDatabase(s, r, Written(s, w));
      SaveKeepsVersion(s.mem, s, r, Written(s, w));
      SaveKeepsVersion(s.disk, s, r, Written(s, w));
    }
  }

  lemma DeliveredLost(s: System, w: Write, t: System)
    requires NothingLost(s) && DeliveryOk(s) && Settled(s.disk, s.db) && Delivers(s, w, t)
    ensures NothingLost(t)
  {
  }

  lemma SettledDisk(s: System)
    requires Inv(s)
    ensures Settled(s.disk, s.db)
  {
  }

  lemma StillCovered(queue: seq<Record>, x: Record)
    requires queue != [] && x in queue
    ensures x == queue[0] || x in queue[1..]
  {
  }

  lemma DeliveredCovers(s: System, w: Write, t: System, g: Game)
    requires DeliveryOk(s) && Delivers(s, w, t) && g in s.disk.pending && s.disk.pending[g].game == g
    ensures g in t.db.done || t.disk.pending[g] in t.phase.queue || t.disk.pending[g].users <= t.phase.blocked
  {
    if s.disk.pending[g] in s.phase.queue {
      StillCovered(s.phase.queue, s.disk.pending[g]);
    }
  }

  lemma DeliveredQueue(s: System, w: Write, t: System)
    requires Inv(s) && Delivers(s, w, t)
    ensures DeliveryOk(t)
  {
    hide NothingLost, DatabaseOk, Settled, Younger;
    forall g | g in t.disk.pending
      ensures g in t.db.done || t.disk.pending[g] in t.phase.queue || t.disk.pending[g].users <= t.phase.blocked
    {
      DeliveredCovers(s, w, t, g);
    }
  }

  lemma DeliverKeeps(s: System, w: Write, t: System)
    requires Inv(s) && Delivers(s, w, t)
    ensures Inv(t)
  {
    SettledDisk(s);
    hide VersionOk, DatabaseOk, NothingLost, DeliveryOk, AfterWrite;
    DeliveredLost(s, w, t);
    DeliveredQueue(s, w, t);
    var r := s.phase.queue[0];
    if r.users * s.phase.blocked != {} {
      SameWorld(s, t, s.mem);
      SameWorld(s, t, s.disk);
    } else {
      WrittenOk(s, w);
      var u := Written(s, w);
      if w == Ok {
        DroppedVersion(s.mem, u, r.game);
      }
      SameWorld(u, t, t.mem);
      SameWorld(u, t, t.disk);
    }
  }

  /** A version stays in order while database, clock and issued games stay as they are. */
  lemma SameWorld(s: System, t: System, v: Version)
    requires t.db == s.db && t.clock == s.clock && t.issued == s.issued
    ensures VersionOk(v, s) ==> VersionOk(v, t)
    ensures DatabaseOk(s) ==> DatabaseOk(t)
  {
  }

  lemma FinishKeeps(s: System, w: Write, t: System)
    requires Inv(s) && Finishes(s, w, t)
    ensures Inv(t)
  {
    hide VersionOk, DatabaseOk;
    SameWorld(s, t, s.mem);
    SameWorld(s, t, s.disk);
  }

  lemma CrashKeeps(s: System, t: System)
    requires Inv(s) && Crashes(s, t)
    ensures Inv(t)
  {
    hide VersionOk, DatabaseOk;
    SameWorld(s, t, s.disk);
  }

  lemma StepKeeps(s: System, t: System)
    requires Inv(s) && Step(s, t)
    ensures Inv(t)
  {
    hide Inv, Persists, Delivers, Finishes, Crashes;
    if started, closed, finished, transactional, w :| Persists(s, started, closed, finished, transactional, w, t) {
      PersistKeeps(s, started, closed, finished, transactional, w, t);
    } else if w :| Delivers(s, w, t) {
      DeliverKeeps(s, w, t);
    } else if w :| Finishes(s, w, t) {
      FinishKeeps(s, w, t);
    } else {
      CrashKeeps(s, t);
    }
  }

  /** Whatever fails and whenever the process crashes: a game's lifetime update is made at most once, and made
      exactly if the game is closed as completed; no committed record is lost, and each player's games are
      applied in the order they were recorded. */
  lemma {:induction false} PromiseHolds(states: seq<System>, i: nat)
    requires Run(states) && i < |states|
    ensures Inv(states[i]) && Promised(states[i])
  {
    hide Step;
    if i > 0 {
      PromiseHolds(states, i - 1);
      StepKeeps(states[i - 1], states[i]);
    }
  }

  // ---------------------------------------------------------------- the loops

  /** The database row of a game: written once, whatever is reported back. */
  class GameStore {
    var db: Database

    constructor ()
      ensures db == Database(map[], [])
    {
      db := Database(map[], []);
    }

    /** `fault` says how the transaction ends. */
    method SaveTerminal(r: Record, fault: Write) returns (error: bool)
      modifies this
      ensures db == AfterWrite(old(db), r, fault) && (error <==> fault != Ok)
    {
      if fault == FailedBefore {
        return true;
      }
      if r.game !in db.done {
        db := db.(done := db.done[r.game := r]);
        if r.kind == Completed {
          db := db.(log := db.log + [r]);
        }
      }
      return fault != Ok;
    }
  }

  /** The delivery step for the first record of the queue. */
  ghost function OneDelivery(s: System, w: Write): (t: System)
    requires s.phase.Delivering? && s.phase.queue != []
    ensures Delivers(s, w, t) && t.phase.Delivering? && t.phase.queue == s.phase.queue[1..] && t.disk == s.disk
  {
    var r, rest, blocked := s.phase.queue[0], s.phase.queue[1..], s.phase.blocked;
    if r.users * blocked != {} then s.(phase := Delivering(rest, blocked + r.users))
    else
      s.(db := AfterWrite(s.db, r, w),
         mem := if w == Ok then Version(s.mem.open - {r.game}, s.mem.pending - {r.game}) else s.mem,
         phase := Delivering(rest, if w == Ok then blocked else blocked + r.users))
  }

  /** What delivering a queue does: one Delivers step per record. */
  ghost function Delivered(s: System, faults: seq<Write>): System
    requires s.phase.Delivering? && |s.phase.queue| <= |faults|
    decreases |s.phase.queue|
  {
    if s.phase.queue == [] then s else Delivered(OneDelivery(s, faults[0]), faults[1..])
  }

  /** The in-memory side: pending records and games still open. */
  class Lobby {
    var open: set<Game>
    var pending: map<Game, Record>

    constructor (v: Version)
      ensures open == v.open && pending == v.pending
    {
      open, pending := v.open, v.pending;
    }

    /** Records of finished games get the next sequence number, unless recorded before. */
    method RecordFinished(f: Finished, clock: nat) returns (clock': nat)
      modifies this
      ensures Records(Version(old(open), old(pending)), f, clock, Version(open, pending), clock')
    {
      clock' := clock;
      if f.game !in open {
        return;
      }
      if f.users == {} {
        open := open - {f.game};
        return;
      }
      if f.game in pending {
        return;
      }
      var sequence, left: set<Game> := 0, pending.Keys;
      while left != {}
        invariant left <= pending.Keys && open == old(open) && pending == old(pending)
        invariant forall g :: g in pending && g !in left ==> pending[g].sequence <= sequence
        invariant sequence > 0 ==> exists g :: g in pending && pending[g].sequence == sequence
      {
        var g :| g in left;
        left := left - {g};
        if pending[g].sequence > sequence {
          sequence := pending[g].sequence;
        }
      }
      assert NextSequence(pending, sequence + 1);
      pending := pending[f.game := Record(sequence + 1, f.game, f.users, f.kind, clock)];
      clock' := clock + 1;
    }

    /** Deliver the queue in order; records of blocked players wait and block their other players too. */
    method SaveStatisticsJobs(store: GameStore, jobs: seq<Record>, faults: seq<Write>,
                              ghost s: System) returns (changed: bool)
      requires |jobs| <= |faults| && s.phase == Delivering(jobs, {})
      requires s.mem == Version(open, pending) && s.db == store.db
      modifies this, store
      ensures var t := Delivered(s, faults); open == t.mem.open && pending == t.mem.pending && store.db == t.db
      ensures !changed ==> pending == old(pending)
    {
      changed := false;
      var blockedPlayers: set<User> := {};
      ghost var now := s;
      for i := 0 to |jobs|
        invariant now.phase == Delivering(jobs[i..], blockedPlayers)
        invariant now.mem == Version(open, pending) && now.db == store.db
        invariant Delivered(now, faults[i..]) == Delivered(s, faults)
        invariant !changed ==> pending == old(pending)
      {
        var job := jobs[i];
        assert jobs[i..][1..] == jobs[i + 1..] && faults[i..][1..] == faults[i + 1..];
        var blocked := job.users * blockedPlayers != {};
        if blocked {
          blockedPlayers := blockedPlayers + job.users;
          now := now.(phase := Delivering(jobs[i + 1..], blockedPlayers));
          continue;
        }
        var error := store.SaveTerminal(job, faults[i]);
        if error {
          blockedPlayers := blockedPlayers + job.users;
          now := now.(db := store.db, phase := Delivering(jobs[i + 1..], blockedPlayers));
          continue;
        }
        open, pending, changed := open - {job.game}, pending - {job.game}, true;
        now := now.(db := store.db, mem := Version(open, pending), phase := Delivering(jobs[i + 1..], blockedPlayers));
      }
    }
  }

  ghost predicate Ascending(queue: seq<Record>) {
    forall i, j :: 0 <= i < j < |queue| ==> queue[i].sequence < queue[j].sequence
  }

  /** Put a record where its sequence number belongs. */
  method InsertBySequence(queue: seq<Record>, r: Record) returns (q: seq<Record>)
    requires Ascending(queue) && forall i :: 0 <= i < |queue| ==> queue[i].sequence != r.sequence
    ensures Ascending(q) && forall x :: x in q <==> x == r || x in queue
  {
    var k := 0;
    while k < |queue| && queue[k].sequence < r.sequence
      invariant k <= |queue| && forall i :: 0 <= i < k ==> queue[i].sequence < r.sequence
    {
      k := k + 1;
    }
    q := queue[..k] + [r] + queue[k..];
    AscendingWith(queue, k, r);
    ElementsWith(queue, k, r);
  }

  lemma AscendingWith(queue: seq<Record>, k: nat, r: Record)
    requires Ascending(queue) && k <= |queue| && forall i :: 0 <= i < k ==> queue[i].sequence < r.sequence
    requires k < |queue| ==> r.sequence < queue[k].sequence
    ensures Ascending(queue[..k] + [r] + queue[k..])
  {
    var q := queue[..k] + [r] + queue[k..];
    assert forall i :: 0 <= i < |q| ==> q[i] == if i < k then queue[i] else if i == k then r else queue[i - 1];
  }

  lemma ElementsWith<T>(s: seq<T>, k: nat, x: T)
    requires k <= |s|
    ensures forall y :: y in s[..k] + [x] + s[k..] <==> y == x || y in s
  {
    assert s == s[..k] + s[k..];
  }

  /** The pending records, sorted by sequence number. */
  method TerminalJobs(pending: map<Game, Record>) returns (jobs: seq<Record>)
    requires forall g, h :: g in pending && h in pending && g != h ==> pending[g].sequence != pending[h].sequence
    requires forall g :: g in pending ==> pending[g].game == g
    ensures IsQueue(jobs, pending)
  {
    jobs := [];
    var left := pending.Keys;
    while left != {}
      invariant left <= pending.Keys && Ascending(jobs)
      invariant forall x :: x in jobs ==> x.game in pending && x.game !in left && pending[x.game] == x
      invariant forall g :: g in pending && g !in left ==> pending[g] in jobs
    {
      var g :| g in left;
      forall i | 0 <= i < |jobs|
        ensures jobs[i].sequence != pending[g].sequence
      {
        assert jobs[i] in jobs;
      }
      jobs := InsertBySequence(jobs, pending[g]);
      left := left - {g};
    }
  }

  /** Every committed record is in the database, a completed game's among the lifetime updates. */
  ghost predicate AllDelivered(s: System) {
    forall g :: g in s.committed ==>
      g in s.db.done && s.db.done[g] == s.committed[g] &&
      (s.committed[g] in s.db.log <==> s.committed[g].kind == Completed)
  }

  lemma EmptyQueueIsDelivered(s: System)
    requires Inv(s) && s.phase.Delivering? && s.phase.queue == [] && s.phase.blocked == {}
    ensures AllDelivered(s)
  {
    hide Younger, AppliedOnce, InOrder;
  }

  /** What one pass over the queue does is a sequence of delivery steps, so it keeps every promise. */
  lemma {:induction false} PassKeepsPromises(s: System, faults: seq<Write>)
    requires Inv(s) && s.phase.Delivering? && |s.phase.queue| <= |faults|
    ensures var t := Delivered(s, faults);
            Inv(t) && Promised(t) && t.phase.Delivering? && t.phase.queue == [] && t.disk == s.disk
    decreases |s.phase.queue|
  {
    hide VersionOk, DatabaseOk, NothingLost, DeliveryOk;
    if s.phase.queue == [] {
      PromisedBy(s);
    } else {
      var t := OneDelivery(s, faults[0]);
      DeliverKeeps(s, faults[0], t);
      PassKeepsPromises(t, faults[1..]);
    }
  }

  lemma PromisedBy(s: System)
    requires Inv(s)
    ensures Promised(s)
  {
  }

  /** Without faults one pass delivers everything. */
  lemma {:induction false} FaultFreePassDelivers(s: System, faults: seq<Write>)
    requires Inv(s) && s.phase.Delivering? && |s.phase.queue| <= |faults| && s.phase.blocked == {}
    requires forall i :: 0 <= i < |faults| ==> faults[i] == Ok
    ensures var t := Delivered(s, faults); Inv(t) && t.committed == s.committed && AllDelivered(t)
    decreases |s.phase.queue|
  {
    hide VersionOk, DatabaseOk, AllDelivered;
    if s.phase.queue != [] {
      var t := OneDelivery(s, Ok);
      DeliverKeeps(s, Ok, t);
      FaultFreePassDelivers(t, faults[1..]);
    } else {
      EmptyQueueIsDelivered(s);
    }
  }

  /** Records of different games, all of them waiting. */
  ghost predicate Waiting(queue: seq<Record>, pending: map<Game, Record>) {
    && (forall i :: 0 <= i < |queue| ==> queue[i].game in pending)
    && (forall i, j :: 0 <= i < j < |queue| ==> queue[i].game != queue[j].game)
  }

  /** Record `j` shares a player with one of `blocked`, or with an earlier record that stays behind. */
  ghost predicate HeldBack(queue: seq<Record>, blocked: set<User>, left: map<Game, Record>, j: nat)
    requires j < |queue|
  {
    queue[j].users * blocked != {} ||
    exists i :: 0 <= i < j && queue[i].game in left && SharePlayer(queue[i], queue[j])
  }

  lemma HeldBackFirst(queue: seq<Record>, blocked: set<User>, left: map<Game, Record>, next: set<User>, j: nat)
    requires 1 <= j < |queue| && next == (if queue[0].game in left then blocked + queue[0].users else blocked)
    ensures HeldBack(queue, blocked, left, j) <==> HeldBack(queue[1..], next, left, j - 1)
  {
    var rest := queue[1..];
    assert rest[j - 1] == queue[j];
    assert queue[j].users * (blocked + queue[0].users) != {} <==>
           queue[j].users * blocked != {} || SharePlayer(queue[0], queue[j]);
    if i :| 0 <= i < j && queue[i].game in left && SharePlayer(queue[i], queue[j]) {
      assert i > 0 ==> rest[i - 1] == queue[i];
    }
    if i :| 0 <= i < j - 1 && rest[i].game in left && SharePlayer(rest[i], rest[j - 1]) {
      assert queue[i + 1] == rest[i];
    }
  }

  /** In a pass with whatever faults a record stays behind exactly if its own write fails or an earlier one of one of
      its players stays behind; nobody else waits. */
  lemma {:induction false} OnlyTheirOwnWait(s: System, faults: seq<Write>, j: nat)
    requires s.phase.Delivering? && Waiting(s.phase.queue, s.mem.pending)
    requires j < |s.phase.queue| <= |faults|
    ensures var left := Delivered(s, faults).mem.pending;
            s.phase.queue[j].game in left <==>
              faults[j] != Ok || HeldBack(s.phase.queue, s.phase.blocked, left, j)
    decreases |s.phase.queue|
  {
    hide HeldBack;
    var queue, t, left := s.phase.queue, OneDelivery(s, faults[0]), Delivered(s, faults).mem.pending;
    StillWaiting(s, faults[0]);
    OthersStay(t, faults[1..], queue[0].game);
    FirstHeldBack(queue, s.phase.blocked, left);
    if j > 0 {
      OnlyTheirOwnWait(t, faults[1..], j - 1);
      HeldBackFirst(queue, s.phase.blocked, left, t.phase.blocked, j);
    }
  }

  lemma FirstHeldBack(queue: seq<Record>, blocked: set<User>, left: map<Game, Record>)
    requires queue != []
    ensures HeldBack(queue, blocked, left, 0) <==> queue[0].users * blocked != {}
  {
  }

  lemma StillWaiting(s: System, w: Write)
    requires s.phase.Delivering? && s.phase.queue != [] && Waiting(s.phase.queue, s.mem.pending)
    ensures var t := OneDelivery(s, w);
            Waiting(t.phase.queue, t.mem.pending) && forall i :: 0 <= i < |t.phase.queue| ==>
              t.phase.queue[i].game != s.phase.queue[0].game
  {
  }

  /** A game that is not in the queue waits after the pass exactly if it did before. */
  lemma {:induction false} OthersStay(s: System, faults: seq<Write>, g: Game)
    requires s.phase.Delivering? && |s.phase.queue| <= |faults|
    requires forall i :: 0 <= i < |s.phase.queue| ==> s.phase.queue[i].game != g
    ensures g in Delivered(s, faults).mem.pending <==> g in s.mem.pending
    decreases |s.phase.queue|
  {
    if s.phase.queue != [] {
      OthersStay(OneDelivery(s, faults[0]), faults[1..], g);
    }
  }

  lemma QueueWithoutHead(queue: seq<Record>, pending: map<Game, Record>)
    requires queue != [] && IsQueue(queue, pending) && forall g :: g in pending ==> pending[g].game == g
    ensures IsQueue(queue[1..], pending - {queue[0].game})
  {
    forall i | 1 <= i < |queue|
      ensures queue[i].game != queue[0].game
    {
      assert queue[0].sequence < queue[i].sequence;
    }
    forall g | g in pending - {queue[0].game}
      ensures pending[g] in queue[1..]
    {
      var i :| 0 <= i < |queue| && queue[i] == pending[g];
      assert i > 0 && queue[1..][i - 1] == pending[g];
    }
  }

  lemma HeadPending(queue: seq<Record>, pending: map<Game, Record>)
    requires queue != [] && IsQueue(queue, pending)
    ensures queue[0].game in pending
  {
  }

  lemma NothingQueued(queue: seq<Record>, pending: map<Game, Record>)
    requires IsQueue(queue, pending)
    ensures queue == [] ==> pending == map[]
  {
    assert forall g :: g in pending ==> pending[g] in queue;
    assert queue == [] ==> pending.Keys == {};
  }

  /** And leaves nothing to deliver: the records are gone and their games closed. */
  lemma {:induction false} FaultFreePassEmpties(s: System, faults: seq<Write>)
    requires s.phase.Delivering? && |s.phase.queue| <= |faults| && s.phase.blocked == {}
    requires IsQueue(s.phase.queue, s.mem.pending) && forall g :: g in s.mem.pending ==> s.mem.pending[g].game == g
    requires forall i :: 0 <= i < |faults| ==> faults[i] == Ok
    ensures Delivered(s, faults).mem == Version(s.mem.open - s.mem.pending.Keys, map[])
    decreases |s.phase.queue|
  {
    hide IsQueue;
    if s.phase.queue != [] {
      var t := OneDelivery(s, Ok);
      QueueWithoutHead(s.phase.queue, s.mem.pending);
      HeadPending(s.phase.queue, s.mem.pending);
      FaultFreePassEmpties(t, faults[1..]);
      assert s.mem.open - {s.phase.queue[0].game} - t.mem.pending.Keys == s.mem.open - s.mem.pending.Keys;
    } else {
      NothingQueued(s.phase.queue, s.mem.pending);
    }
  }

  // ---------------------------------------------------------------- from a finished game to its players

  /** The game is met for the first time as the k-th finished one, and can still be recorded. */
  ghost predicate Recordable(v: Version, finished: seq<Finished>, k: nat)
    requires k < |finished|
  {
    && finished[k].game in v.open && finished[k].game !in v.pending && finished[k].users != {}
    && forall i :: 0 <= i < k ==> finished[i].game != finished[k].game
  }

  lemma {:induction false} RecordedAsFinished(v: Version, finished: seq<Finished>, clock: nat, v': Version,
                                              clock': nat, k: nat)
    requires RecordsAll(v, finished, clock, v', clock') && k < |finished| && Recordable(v, finished, k)
    ensures var f := finished[k];
            f.game in v'.pending && v'.pending[f.game].game == f.game && v'.pending[f.game].users == f.users &&
            v'.pending[f.game].kind == f.kind
    decreases |finished|
  {
    var n := |finished| - 1;
    var u, c :| RecordsAll(v, finished[..n], clock, u, c) && Records(u, finished[n], c, v', clock');
    if k < n {
      RecordedAsFinished(v, finished[..n], clock, u, c, k);
    } else {
      NotYetRecorded(v, finished[..n], clock, u, c, finished[k].game);
    }
  }

  lemma {:induction false} NotYetRecorded(v: Version, finished: seq<Finished>, clock: nat, v': Version,
                                          clock': nat, g: Game)
    requires RecordsAll(v, finished, clock, v', clock') && forall i :: 0 <= i < |finished| ==> finished[i].game != g
    ensures (g in v'.open <==> g in v.open) && (g in v'.pending <==> g in v.pending)
  {
    if finished != [] {
      var n := |finished| - 1;
      var u, c :| RecordsAll(v, finished[..n], clock, u, c) && Records(u, finished[n], c, v', clock');
      NotYetRecorded(v, finished[..n], clock, u, c, g);
    }
  }

  /** A game that ends in a saved command and is delivered without faults: if it was completed, the lifetime
      updates hold it with the players it had, and if it was ended without a result they do not. */
  lemma FinishedGameIsCounted(s: System, started: set<Game>, closed: set<Game>, finished: seq<Finished>,
                              transactional: bool, t: System, k: nat, faults: seq<Write>)
    requires Inv(s) && Persists(s, started, closed, finished, transactional, Ok, t)
    requires k < |finished| && Recordable(Version(s.mem.open + started - closed, s.mem.pending), finished, k)
    requires |t.phase.queue| <= |faults| && forall i :: 0 <= i < |faults| ==> faults[i] == Ok
    ensures var f, db := finished[k], Delivered(t, faults).db;
            f.game in db.done && db.done[f.game].users == f.users && db.done[f.game].kind == f.kind &&
            (db.done[f.game] in db.log <==> f.kind == Completed)
  {
    hide Inv, RecordsAll, Recordable, AllDelivered;
    PersistKeeps(s, started, closed, finished, transactional, Ok, t);
    var u := Version(s.mem.open + started - closed, s.mem.pending);
    var v, c :| RecordsAll(u, finished, s.clock, v, c) && t.committed == s.committed + v.pending;
    RecordedAsFinished(u, finished, s.clock, v, c, k);
    FaultFreePassDelivers(t, faults);
    DeliveredAs(Delivered(t, faults), finished[k].game);
  }

  lemma DeliveredAs(s: System, g: Game)
    requires AllDelivered(s) && g in s.committed
    ensures g in s.db.done && s.db.done[g] == s.committed[g]
    ensures s.db.done[g] in s.db.log <==> s.db.done[g].kind == Completed
  {
  }
}
