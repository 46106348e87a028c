// Rooms of internal/service/room_service.go over their tables, with the cache of rooms and the
// set of subscribers. A Redis or database error is not modelled; a cached key may lapse at any time.
module Rooms {
  import opened Prelude
  import opened RoomTables

  datatype Error = RoomNotFound | UserBanned | NotMember | Refused

  datatype Notice = JoinedRoom(k: Key) | LeftRoom(k: Key)

  datatype Store = Store(db: Tables, cache: map<string, Room>, subscribers: set<Key>, notices: seq<Notice>)

  datatype Draft = Draft(name: string, kind: string, description: string, createdBy: string)

  function NewRoom(d: Draft, now: int): Room {
    Room(d.kind, Details(d.name, d.description, "", Settings(true, true, 0, 0, false, false)), d.createdBy, now, now, None, 1)
  }

  // ---------- Operations ----------

  function Uncached(s: Store, db: Tables, id: string): Store { s.(db := db, cache := s.cache - {id}) }

  function Create(s: Store, id: string, d: Draft, now: int): (Store, Option<Error>) {
    if id in s.db.rooms || (id, d.createdBy) in s.db.members then (s, Some(Refused))
    else (s.(db := Inserted(s.db, id, NewRoom(d, now), d.createdBy, now)), None)
  }

  function Get(s: Store, id: string): (Store, Option<Room>) {
    if id in s.cache then (s, Some(s.cache[id]))
    else
      var room := Open(s.db, id);
      (if room.Some? then s.(cache := s.cache[id := room.value]) else s, room)
  }

  function Add(s: Store, k: Key, role: Role, now: int): (Store, Option<Error>) {
    if k.0 !in s.db.rooms then (s, Some(Refused)) else (Uncached(s, Upserted(s.db, k, role, now), k.0), None)
  }

  predicate Banned(db: Tables, k: Key) { k in db.members && db.members[k].bannedAt.Some? }

  function JoinRefusal(db: Tables, k: Key): Option<Error> {
    if Open(db, k.0).None? then Some(RoomNotFound) else if Banned(db, k) then Some(UserBanned) else None
  }

  /** A join changes something only for a user who may join and is not in. */
  predicate Joins(db: Tables, k: Key) { JoinRefusal(db, k).None? && !Active(db, k) }

  function Join(s: Store, k: Key, now: int): (Store, Option<Error>) {
    (if Joins(s.db, k) then
       Uncached(s, JoinedTx(s.db, k, now), k.0).(subscribers := s.subscribers + {k}, notices := s.notices + [JoinedRoom(k)])
     else s,
     JoinRefusal(s.db, k))
  }

  function Leave(s: Store, k: Key, now: int): (Store, Option<Error>) {
    if !Active(s.db, k) then (s, Some(NotMember))
    else
      (Uncached(s, Recounted(Left(s.db, k, now), k.0, now), k.0).
         (subscribers := s.subscribers - {k}, notices := s.notices + [LeftRoom(k)]),
       None)
  }

  class RoomService {
    const repo: RoomRepository
    var cache: map<string, Room>
    var subscribers: set<Key>
    var notices: seq<Notice>

    function Abs(): Store
      reads this, repo
    {
      Store(repo.Abs(), cache, subscribers, notices)
    }

    constructor (repo: RoomRepository)
      ensures this.repo == repo
      ensures Abs() == Store(repo.Abs(), map[], {}, [])
    {
      this.repo := repo;
      cache, subscribers, notices := map[], {}, [];
    }

    method CreateRoom(id: string, d: Draft, now: int) returns (error: Option<Error>)
      modifies repo
      ensures (Abs(), error) == Create(old(Abs()), id, d, now)
    {
      var settings := Settings(true, true, 0, 0, false, false);
      var room := Room(d.kind, Details(d.name, d.description, "", settings), d.createdBy, now, now, None, 1);
      var ok := repo.CreateRoomWithOwner(id, room, d.createdBy, now);
      return if ok then None else Some(Refused);
    }

    method GetByID(id: string) returns (room: Option<Room>)
      modifies this`cache
      ensures (Abs(), room) == Get(old(Abs()), id)
    {
      if id in cache { return Some(cache[id]); }
      room := repo.GetByID(id);
      if room.Some? {
        cache := cache[id := room.value];
      }
    }

    method Update(id: string, details: Details, memberCount: int, now: int)
      modifies this`cache, repo
      ensures Abs() == Uncached(old(Abs()), Rewritten(old(repo.Abs()), id, details, memberCount, now), id)
    {
      repo.Update(id, details, memberCount, now);
      cache := cache - {id};
    }

    method Delete(id: string, now: int)
      modifies this`cache, repo
      ensures Abs() == Uncached(old(Abs()), Archived(old(repo.Abs()), id, now), id)
    {
      repo.Delete(id, now);
      cache := cache - {id};
    }

    method AddMember(k: Key, role: Role, now: int) returns (error: Option<Error>)
      modifies this`cache, repo
      ensures (Abs(), error) == Add(old(Abs()), k, role, now)
    {
      var ok := repo.AddMember(k, role, now);
      if !ok { return Some(Refused); }
      cache := cache - {k.0};
      return None;
    }

    method RemoveMember(k: Key, now: int)
      modifies this`cache, repo
      ensures Abs() == Uncached(old(Abs()), Left(old(repo.Abs()), k, now), k.0)
    {
      repo.RemoveMember(k, now);
      cache := cache - {k.0};
    }

    method IsMember(k: Key) returns (yes: bool)
      ensures yes <==> Active(Abs().db, k)
    {
      yes := repo.IsMember(k);
    }

    method JoinRoom(k: Key, now: int) returns (error: Option<Error>)
      modifies this, repo
      ensures (Abs(), error) == Join(old(Abs()), k, now)
    {
      var room := repo.GetByID(k.0);
      if room.None? { return Some(RoomNotFound); }
      var member := repo.GetMember(k);
      if member.Some? {
        if member.value.bannedAt.Some? { return Some(UserBanned); }
        if member.value.leftAt.None? { return None; }
      } else {
        var record := repo.GetMemberRecord(k);
        if record.Some? && record.value.bannedAt.Some? { return Some(UserBanned); }
      }
      var ok := repo.JoinRoomTx(k, now);
      if !ok { return Some(Refused); }
      cache := cache - {k.0};
      subscribers := subscribers + {k};
      notices := notices + [JoinedRoom(k)];
      return None;
    }

    method LeaveRoom(k: Key, now: int) returns (error: Option<Error>)
      modifies this, repo
      ensures (Abs(), error) == Leave(old(Abs()), k, now)
    {
      var member := repo.GetMember(k);
      if member.None? { return Some(NotMember); }
      repo.LeaveRoomTx(k, now);
      cache := cache - {k.0};
      subscribers := subscribers - {k};
      notices := notices + [LeftRoom(k)];
      return None;
    }
  }

  // ---------- Runs ----------

  /** Bans are written to the table from outside; a cached room lapses after its time to live. */
  datatype Op =
    | Creating(id: string, draft: Draft, now: int)
    | Getting(id: string)
    | Updating(id: string, details: Details, memberCount: int, now: int)
    | Archiving(id: string, now: int)
    | Adding(k: Key, role: Role, now: int)
    | Removing(k: Key, now: int)
    | Joining(k: Key, now: int)
    | Leaving(k: Key, now: int)
    | Banning(k: Key, now: int)
    | Lapsing(id: string)

  function Next(s: Store, op: Op): Store {
    match op
    case Creating(id, d, now) => Create(s, id, d, now).0
    case Getting(id) => Get(s, id).0
    case Updating(id, details, count, now) => Uncached(s, Rewritten(s.db, id, details, count, now), id)
    case Archiving(id, now) => Uncached(s, Archived(s.db, id, now), id)
    case Adding(k, role, now) => Add(s, k, role, now).0
    case Removing(k, now) => Uncached(s, Left(s.db, k, now), k.0)
    case Joining(k, now) => Join(s, k, now).0
    case Leaving(k, now) => Leave(s, k, now).0
    case Banning(k, now) =>
      if k in s.db.members
      then s.(db := s.db.(members := s.db.members[k := s.db.members[k].(bannedAt := Some(now))])) else s
    case Lapsing(id) => s.(cache := s.cache - {id})
  }

  function Run(ops: seq<Op>): Store {
    if ops == [] then Store(Tables(map[], map[]), map[], {}, [])
    else Next(Run(ops[..|ops| - 1]), ops[|ops| - 1])
  }

  // ---------- The cache agrees with the table ----------

  ghost predicate Coherent(s: Store) {
    RoomsExist(s.db) && forall id | id in s.cache :: Open(s.db, id) == Some(s.cache[id])
  }

  lemma StepCoherent(s: Store, op: Op)
    requires Coherent(s)
    ensures Coherent(Next(s, op))
  {
    match op
    case Joining(k, now) => assert forall id | id != k.0 :: Open(Next(s, op).db, id) == Open(s.db, id);
    case Leaving(k, now) => assert forall id | id != k.0 :: Open(Next(s, op).db, id) == Open(s.db, id);
    case _ =>
  }

  lemma {:induction false} RunCoherent(ops: seq<Op>)
    ensures Coherent(Run(ops))
  {
    if ops != [] {
      RunCoherent(ops[..|ops| - 1]);
      StepCoherent(Run(ops[..|ops| - 1]), ops[|ops| - 1]);
    }
  }

  /** Cached or not, a lookup answers what the repository would, which is the row exactly while it is
      there and not archived. It caches what it finds and changes nothing else. */
  lemma {:induction false} LookupAnswersAsRepository(ops: seq<Op>, id: string)
    ensures var s := Run(ops);
            && Get(s, id).1 == Open(s.db, id)
            && Get(s, id).0 == s.(cache := if Get(s, id).1.Some? then s.cache[id := Get(s, id).1.value] else s.cache)
            && Open(s.db, id) ==
               if id in s.db.rooms && s.db.rooms[id].archivedAt.None? then Some(s.db.rooms[id]) else None
  {
    RunCoherent(ops);
  }

  // ---------- The drift of member_count ----------

  predicate Recounts(db: Tables, op: Op, id: string) {
    match op
    case Creating(id', d, _) => id' == id && id !in db.rooms && (id, d.createdBy) !in db.members
    case Joining(k, now) =>
      k.0 == id && Joins(db, k) && (k in db.members ==> db.members[k].joinedAt > now - 1_000_000_000)
    case Leaving(k, _) => k.0 == id && Active(db, k)
    case _ => false
  }

  /** A return one second or more after the user first joined. */
  predicate ReturnsLate(db: Tables, op: Op, id: string) {
    op.Joining? && op.k.0 == id && Joins(db, op.k) && op.k in db.members &&
    db.members[op.k].joinedAt <= op.now - 1_000_000_000
  }

  /** One operation's effect on the members gained past the counter: late returns, and what the
      operations that never recount (AddMember, RemoveMember, Update) do. */
  function DriftAfter(db: Tables, op: Op, id: string, drift: int): int {
    if Recounts(db, op, id) then 0
    else if ReturnsLate(db, op, id) then drift + 1
    else if op.Adding? && op.k.0 == id && id in db.rooms && !Active(db, op.k) then drift + 1
    else if op.Removing? && op.k.0 == id && Active(db, op.k) then drift - 1
    else if op.Updating? && op.id == id && id in db.rooms then drift + db.rooms[id].memberCount - op.memberCount
    else drift
  }

  function Drift(ops: seq<Op>, id: string): int {
    if ops == [] then 0
    else DriftAfter(Run(ops[..|ops| - 1]).db, ops[|ops| - 1], id, Drift(ops[..|ops| - 1], id))
  }

  predicate Accounted(db: Tables, id: string, drift: int) {
    id in db.rooms ==> |ActiveOf(db.members, id)| == db.rooms[id].memberCount + drift
  }

  lemma JoinCounts(db: Tables, k: Key, now: int, id: string, drift: int)
    requires Accounted(db, id, drift) && Joins(db, k)
    ensures Accounted(JoinedTx(db, k, now), id,
                      if k.0 != id then drift
                      else if k in db.members && db.members[k].joinedAt <= now - SECOND then drift + 1
                      else 0)
  {
    UpsertGrowth(db, k, Member, now, id);
  }

  lemma LeaveCounts(db: Tables, k: Key, now: int, id: string, drift: int)
    requires Accounted(db, id, drift) && Active(db, k)
    ensures Accounted(Recounted(Left(db, k, now), k.0, now), id, if k.0 == id then 0 else drift)
  {
    LeftGrowth(db, k, now, id);
  }

  lemma BanCounts(s: Store, k: Key, now: int, id: string)
    ensures ActiveOf(Next(s, Banning(k, now)).db.members, id) == ActiveOf(s.db.members, id)
  {
    var after := Next(s, Banning(k, now)).db.members;
    forall q ensures q in ActiveOf(after, id) <==> q in ActiveOf(s.db.members, id) {}
  }

  lemma DriftStep(s: Store, op: Op, id: string, drift: int)
    requires RoomsExist(s.db) && Accounted(s.db, id, drift)
    ensures Accounted(Next(s, op).db, id, DriftAfter(s.db, op, id, drift))
  {
    match op
    case Creating(id', d, now) =>
      if id' !in s.db.rooms {
        InsertCounts(s.db, id', NewRoom(d, now), d.createdBy, now);
      }
    case Adding(k, role, now) => UpsertGrowth(s.db, k, role, now, id);
    case Removing(k, now) => LeftGrowth(s.db, k, now, id);
    case Joining(k, now) => if Joins(s.db, k) { JoinCounts(s.db, k, now, id, drift); }
    case Leaving(k, now) => if Active(s.db, k) { LeaveCounts(s.db, k, now, id, drift); }
    case Banning(k, now) => BanCounts(s, k, now, id);
    case _ =>
  }

  /** The counter is off by exactly the drift, in every run. */
  lemma {:induction false} DriftLaw(ops: seq<Op>, id: string)
    ensures Accounted(Run(ops).db, id, Drift(ops, id))
  {
    if ops != [] {
      var before := ops[..|ops| - 1];
      DriftLaw(before, id);
      RunCoherent(before);
      DriftStep(Run(before), ops[|ops| - 1], id, Drift(before, id));
    }
  }

  predicate KeepsCount(op: Op) { !op.Adding? && !op.Removing? && !op.Updating? }

  /** Without those three operations the drift is the number of late returns since the last recount. */
  function LateReturns(ops: seq<Op>, id: string): nat {
    if ops == [] then 0
    else
      var db, op := Run(ops[..|ops| - 1]).db, ops[|ops| - 1];
      if Recounts(db, op, id) then 0
      else LateReturns(ops[..|ops| - 1], id) + (if ReturnsLate(db, op, id) then 1 else 0)
  }

  lemma {:induction false} DriftIsLateReturns(ops: seq<Op>, id: string)
    requires forall op | op in ops :: KeepsCount(op)
    ensures Drift(ops, id) == LateReturns(ops, id)
  {
    if ops != [] {
      assert KeepsCount(ops[|ops| - 1]);
      DriftIsLateReturns(ops[..|ops| - 1], id);
    }
  }

  /** Then `member_count` never exceeds the active members, and is exact unless someone returned late. */
  lemma CountNeverExceeds(ops: seq<Op>, id: string)
    requires id in Run(ops).db.rooms && forall op | op in ops :: KeepsCount(op)
    ensures var db := Run(ops).db;
            var active := |ActiveOf(db.members, id)|;
            && db.rooms[id].memberCount + LateReturns(ops, id) == active
            && db.rooms[id].memberCount <= active
            && (db.rooms[id].memberCount == active <==> LateReturns(ops, id) == 0)
  {
    DriftLaw(ops, id);
    DriftIsLateReturns(ops, id);
  }

  /** A creation, a leave, a first join or an early return makes the counter exact, whatever came before. */
  lemma RecountsAreExact(ops: seq<Op>, op: Op, id: string)
    requires Recounts(Run(ops).db, op, id)
    ensures var db := Run(ops + [op]).db;
            id in db.rooms ==> db.rooms[id].memberCount == |ActiveOf(db.members, id)|
  {
    assert (ops + [op])[..|ops|] == ops;
    DriftLaw(ops + [op], id);
  }

  // ---------- Records ----------

  lemma RunAppend(ops: seq<Op>, op: Op)
    ensures Run(ops + [op]) == Next(Run(ops), op)
  {
    assert (ops + [op])[..|ops|] == ops;
  }

  ghost predicate SameOrigin(db: Tables, db': Tables, k: Key) {
    k in db.members ==>
      && k in db'.members
      && db'.members[k].role == db.members[k].role
      && db'.members[k].joinedAt == db.members[k].joinedAt
      && (db.members[k].bannedAt.Some? ==> db'.members[k].bannedAt.Some?)
  }

  lemma StepKeepsOrigin(s: Store, op: Op, k: Key)
    ensures SameOrigin(s.db, Next(s, op).db, k)
  {}

  /** No operation ever changes the role or the joining time of a record, or lifts a ban. */
  lemma {:induction false} RecordsKeepTheirOrigin(ops: seq<Op>, more: seq<Op>, k: Key)
    ensures SameOrigin(Run(ops).db, Run(ops + more).db, k)
    decreases |more|
  {
    if more == [] {
      assert ops + more == ops;
    } else {
      var front, op := more[..|more| - 1], more[|more| - 1];
      RecordsKeepTheirOrigin(ops, front, k);
      RunAppend(ops + front, op);
      assert ops + more == (ops + front) + [op];
      StepKeepsOrigin(Run(ops + front), op, k);
    }
  }

  ghost predicate StaysOut(ops: seq<Op>, more: seq<Op>, k: Key) {
    forall n | 0 <= n <= |more| :: !Active(Run(ops + more[..n]).db, k)
  }

  predicate Adds(op: Op, k: Key) { op.Adding? && op.k == k }

  lemma BannedStep(s: Store, op: Op, k: Key)
    requires RoomsExist(s.db) && Banned(s.db, k) && !Active(s.db, k)
    ensures Active(Next(s, op).db, k) <==> Adds(op, k)
  {
    assert k.0 in s.db.rooms;
  }

  lemma {:induction false} BannedStaysOutWhile(ops: seq<Op>, more: seq<Op>, k: Key)
    requires Banned(Run(ops).db, k) && !Active(Run(ops).db, k)
    requires forall op | op in more :: !Adds(op, k)
    ensures !Active(Run(ops + more).db, k)
    decreases |more|
  {
    if more == [] {
      assert ops + more == ops;
    } else {
      var front, op := more[..|more| - 1], more[|more| - 1];
      BannedStaysOutWhile(ops, front, k);
      RecordsKeepTheirOrigin(ops, front, k);
      RunCoherent(ops + front);
      RunAppend(ops + front, op);
      assert ops + more == (ops + front) + [op];
      BannedStep(Run(ops + front), op, k);
    }
  }

  /** A banned user who has left stays out exactly as long as nobody calls AddMember for them, which
      alone does not look at the ban. */
  lemma BannedStaysOutIff(ops: seq<Op>, more: seq<Op>, k: Key)
    requires Banned(Run(ops).db, k) && !Active(Run(ops).db, k)
    ensures StaysOut(ops, more, k) <==> forall op | op in more :: !Adds(op, k)
  {
    if forall op | op in more :: !Adds(op, k) {
      forall n | 0 <= n <= |more| ensures !Active(Run(ops + more[..n]).db, k) {
        BannedStaysOutWhile(ops, more[..n], k);
      }
    } else {
      var i := FirstAdd(more, k);
      AddBringsBack(ops, more[..i], more[i], k);
      assert ops + more[..i + 1] == (ops + more[..i]) + [more[i]];
    }
  }

  lemma AddBringsBack(ops: seq<Op>, front: seq<Op>, add: Op, k: Key)
    requires Banned(Run(ops).db, k) && !Active(Run(ops).db, k)
    requires (forall op | op in front :: !Adds(op, k)) && Adds(add, k)
    ensures Active(Run((ops + front) + [add]).db, k)
  {
    BannedStaysOutWhile(ops, front, k);
    RecordsKeepTheirOrigin(ops, front, k);
    RunCoherent(ops + front);
    RunAppend(ops + front, add);
    BannedStep(Run(ops + front), add, k);
  }

  lemma FirstAdd(more: seq<Op>, k: Key) returns (i: nat)
    requires exists op :: op in more && Adds(op, k)
    ensures i < |more| && Adds(more[i], k) && forall op | op in more[..i] :: !Adds(op, k)
  {
    if exists op :: op in more[..|more| - 1] && Adds(op, k) {
      i := FirstAdd(more[..|more| - 1], k);
      assert more[..|more| - 1][..i] == more[..i];
    } else {
      i := |more| - 1;
    }
  }

  /** A second join, whenever it comes, answers the same and changes nothing. */
  lemma JoinTwiceIsOnce(s: Store, k: Key, now: int, later: int)
    ensures Join(Join(s, k, now).0, k, later) == Join(s, k, now)
  {}

  /** The last operation that brought the user in or took it out was RemoveMember, which does not unsubscribe. */
  predicate RemovedLast(ops: seq<Op>, k: Key) {
    ops != [] &&
    var before, op := ops[..|ops| - 1], ops[|ops| - 1];
    if op.Removing? && op.k == k then true
    else if op.Adding? && op.k == k && k.0 in Run(before).db.rooms then false
    else if op.Joining? && op.k == k && Joins(Run(before).db, k) then false
    else if op.Leaving? && op.k == k && Active(Run(before).db, k) then false
    else RemovedLast(before, k)
  }

  predicate Tracked(s: Store, k: Key, removed: bool) {
    k in s.subscribers ==> k in s.db.members && (Active(s.db, k) <==> !removed)
  }

  lemma StepTracked(s: Store, op: Op, k: Key, removed: bool)
    requires RoomsExist(s.db) && Tracked(s, k, removed)
    ensures Tracked(Next(s, op), k,
                    if op.Removing? && op.k == k then true
                    else if op.Adding? && op.k == k && k.0 in s.db.rooms then false
                    else if op.Joining? && op.k == k && Joins(s.db, k) then false
                    else if op.Leaving? && op.k == k && Active(s.db, k) then false
                    else removed)
  {
  }

  lemma {:induction false} RunTracked(ops: seq<Op>, k: Key)
    ensures Tracked(Run(ops), k, RemovedLast(ops, k))
  {
    if ops != [] {
      var before := ops[..|ops| - 1];
      RunTracked(before, k);
      RunCoherent(before);
      StepTracked(Run(before), ops[|ops| - 1], k, RemovedLast(before, k));
    }
  }

  /** Every subscriber is an active member exactly when no subscriber was last taken out by RemoveMember. */
  lemma SubscribersAreMembers(ops: seq<Op>)
    ensures (forall k | k in Run(ops).subscribers :: Active(Run(ops).db, k))
            <==> (forall k | k in Run(ops).subscribers :: !RemovedLast(ops, k))
  {
    forall k | k in Run(ops).subscribers ensures Active(Run(ops).db, k) <==> !RemovedLast(ops, k) {
      RunTracked(ops, k);
    }
  }

  // ---------- What the operations do ----------

  /** A new room has the draft's fields, the default settings, a count of one, and its creator as owner;
      nothing else changes. It is refused exactly for an id that is taken. */
  lemma CreateOutcome(s: Store, id: string, d: Draft, now: int)
    requires RoomsExist(s.db)
    ensures var (s', e) := Create(s, id, d, now);
            && (e == None <==> id !in s.db.rooms)
            && (e.Some? ==> s' == s)
            && (e == None ==>
                  && s' == s.(db := s'.db) && (id, d.createdBy) !in s.db.members
                  && s'.db.rooms == s.db.rooms[id := s'.db.rooms[id]]
                  && s'.db.members == s.db.members[(id, d.createdBy) := Record(Owner, now, None, None)]
                  && var room := s'.db.rooms[id];
                  && room.details.name == d.name && room.kind == d.kind && room.details.description == d.description
                  && room.createdBy == d.createdBy && room.createdAt == now && room.archivedAt.None?
                  && room.memberCount == 1
                  && room.details.settings.allowReactions && room.details.settings.allowThreads
                  && !room.details.settings.requireApproval && !room.details.settings.onlyAdminsCanPost)
  {
  }

  /** Only room `id` may differ, by its counter and update time. */
  predicate OnlyCounted(db: Tables, db': Tables, id: string) {
    && db'.rooms.Keys == db.rooms.Keys && (forall r | r in db.rooms && r != id :: db'.rooms[r] == db.rooms[r])
    && (id in db.rooms ==>
          db'.rooms[id] == db.rooms[id].(memberCount := db'.rooms[id].memberCount, updatedAt := db'.rooms[id].updatedAt))
  }

  /** A join is refused exactly for a missing or archived room or a ban, does nothing for a member who is
      in, and else puts the user in: a newcomer as a plain member from now on, a former one as before. */
  lemma JoinOutcome(s: Store, k: Key, now: int)
    ensures var (s', e) := Join(s, k, now);
            && (e == Some(RoomNotFound) <==> k.0 !in s.db.rooms || s.db.rooms[k.0].archivedAt.Some?)
            && (e == Some(UserBanned) <==>
                  && k.0 in s.db.rooms && s.db.rooms[k.0].archivedAt.None?
                  && k in s.db.members && s.db.members[k].bannedAt.Some?)
            && (e.Some? ==> e.value == RoomNotFound || e.value == UserBanned)
            && (e.Some? || (k in s.db.members && s.db.members[k].leftAt.None?) ==> s' == s)
            && (e == None && !(k in s.db.members && s.db.members[k].leftAt.None?) ==>
                  && OnlyCounted(s.db, s'.db, k.0)
                  && s'.db.members == s.db.members[k :=
                       if k in s.db.members then s.db.members[k].(leftAt := None) else Record(Member, now, None, None)]
                  && s'.cache == s.cache - {k.0}
                  && s'.subscribers == s.subscribers + {k} && s'.notices == s.notices + [JoinedRoom(k)])
  {
  }

  /** A leave is refused exactly for a non-member, and else marks the record, whatever the room's state. */
  lemma LeaveOutcome(s: Store, k: Key, now: int)
    ensures var (s', e) := Leave(s, k, now);
            && (e.Some? <==> !(k in s.db.members && s.db.members[k].leftAt.None?))
            && (e.Some? ==> e == Some(NotMember) && s' == s)
            && (e == None ==>
                  && OnlyCounted(s.db, s'.db, k.0)
                  && s'.db.members == s.db.members[k := s.db.members[k].(leftAt := Some(now))]
                  && s'.cache == s.cache - {k.0}
                  && s'.subscribers == s.subscribers - {k} && s'.notices == s.notices + [LeftRoom(k)])
  {
  }

  /** AddMember and RemoveMember touch one record and the cached room, and nobody's subscription. */
  lemma AddAndRemoveOutcome(s: Store, k: Key, role: Role, now: int)
    ensures var (s', e) := Add(s, k, role, now);
            && (e.Some? <==> k.0 !in s.db.rooms) && (e.Some? ==> s' == s)
            && (e == None ==>
                  s' == s.(cache := s.cache - {k.0}, db := s.db.(members := s.db.members[k :=
                    if k in s.db.members then s.db.members[k].(leftAt := None) else Record(role, now, None, None)])))
    ensures var s' := Next(s, Removing(k, now));
            s' == s.(cache := s.cache - {k.0}, db := s.db.(members :=
              if k in s.db.members then s.db.members[k := s.db.members[k].(leftAt := Some(now))] else s.db.members))
  {
  }

  /** After an update a lookup answers the new details, in every run where the room is not archived. */
  lemma UpdateTakesEffect(ops: seq<Op>, id: string, details: Details, count: int, now: int)
    requires id in Run(ops).db.rooms && Run(ops).db.rooms[id].archivedAt.None?
    ensures var s, s' := Run(ops), Next(Run(ops), Updating(id, details, count, now));
            && Get(s', id).1 ==
               Some(s.db.rooms[id].(details := details, memberCount := count, updatedAt := now))
            && s'.db.members == s.db.members
            && (forall other | other != id :: Get(s', other).1 == Get(s, other).1)
  {
    RunCoherent(ops);
  }

  predicate IsArchived(s: Store, id: string) { id in s.db.rooms && s.db.rooms[id].archivedAt.Some? }

  lemma StepKeepsArchived(s: Store, op: Op, id: string)
    requires IsArchived(s, id)
    ensures IsArchived(Next(s, op), id)
  {
  }

  lemma {:induction false} ArchivedStays(ops: seq<Op>, more: seq<Op>, id: string)
    requires IsArchived(Run(ops), id)
    ensures IsArchived(Run(ops + more), id)
    decreases |more|
  {
    if more == [] {
      assert ops + more == ops;
    } else {
      var front, op := more[..|more| - 1], more[|more| - 1];
      ArchivedStays(ops, front, id);
      RunAppend(ops + front, op);
      assert ops + more == (ops + front) + [op];
      StepKeepsArchived(Run(ops + front), op, id);
    }
  }

  /** Once archived a room is never found again, by a lookup or by a join. */
  lemma ArchivedIsNeverFound(ops: seq<Op>, id: string, at: int, more: seq<Op>, user: string, now: int)
    requires id in Run(ops).db.rooms
    ensures var s := Run(ops + [Archiving(id, at)] + more);
            && Get(s, id).1 == None && Join(s, (id, user), now) == (s, Some(RoomNotFound))
  {
    var archived := ops + [Archiving(id, at)];
    RunAppend(ops, Archiving(id, at));
    ArchivedStays(archived, more, id);
    LookupAnswersAsRepository(archived + more, id);
  }

  // ---------- Where roles come from ----------

  /** The operation that first wrote the record: its role and time. */
  function FirstWrite(ops: seq<Op>, k: Key): Option<(Role, int)> {
    if ops == [] then None
    else
      var before, op := ops[..|ops| - 1], ops[|ops| - 1];
      var earlier, rooms := FirstWrite(before, k), Run(before).db.rooms;
      if earlier.Some? then earlier
      else
        match op
        case Creating(id, d, now) => if (id, d.createdBy) == k && id !in rooms then Some((Owner, now)) else None
        case Adding(k', role, now) => if k' == k && k.0 in rooms then Some((role, now)) else None
        case Joining(k', now) =>
          if k' == k && k.0 in rooms && rooms[k.0].archivedAt.None? then Some((Member, now)) else None
        case _ => None
  }

  predicate AsWritten(db: Tables, k: Key, first: Option<(Role, int)>) {
    && (k in db.members <==> first.Some?)
    && (k in db.members ==> db.members[k].role == first.value.0 && db.members[k].joinedAt == first.value.1)
  }

  lemma NewRecord(ops: seq<Op>, op: Op, k: Key)
    requires RoomsExist(Run(ops).db) && k !in Run(ops).db.members && FirstWrite(ops, k).None?
    ensures AsWritten(Next(Run(ops), op).db, k, FirstWrite(ops + [op], k))
  {
    assert (ops + [op])[..|ops|] == ops;
  }

  /** In every run a record has the role and joining time of its first write: owner for who created the
      room, the stated role for AddMember, plain member for a join. There is no other way to a record. */
  lemma {:induction false} RolesAreAsFirstWritten(ops: seq<Op>, k: Key)
    ensures AsWritten(Run(ops).db, k, FirstWrite(ops, k))
  {
    if ops != [] {
      var before, op := ops[..|ops| - 1], ops[|ops| - 1];
      RolesAreAsFirstWritten(before, k);
      RunCoherent(before);
      assert ops == before + [op];
      if k in Run(before).db.members {
        StepKeepsOrigin(Run(before), op, k);
      } else {
        NewRecord(before, op, k);
      }
    }
  }

  // ---------- A counter that lags ----------

  /** A founder, then a second member who leaves and comes back two seconds after joining. */
  lemma LateReturnIsNotCounted(id: string, d: Draft, user: string)
    requires user != d.createdBy
    ensures var k := (id, user);
            var ops := [Creating(id, d, 0)] + [Joining(k, 1)] + [Leaving(k, 2)] + [Joining(k, 1 + 2 * SECOND)];
            var db := Run(ops).db;
            id in db.rooms && db.rooms[id].memberCount == 1 && ActiveOf(db.members, id) == {(id, d.createdBy), k}
  {
    var k, owner := (id, user), (id, d.createdBy);
    var a, b, c, e := Creating(id, d, 0), Joining(k, 1), Leaving(k, 2), Joining(k, 1 + 2 * SECOND);
    RunFour(a, b, c, e);
    JoinedAndLeft(id, d, k);
    LateJoin(Next(Next(Next(Run([]), a), b), c), k, e.now, {owner});
  }

  lemma JoinedAndLeft(id: string, d: Draft, k: Key)
    requires k.0 == id && k.1 != d.createdBy
    ensures var owner := (id, d.createdBy);
            var s := Next(Next(Next(Run([]), Creating(id, d, 0)), Joining(k, 1)), Leaving(k, 2));
            && id in s.db.rooms && s.db.rooms[id].archivedAt.None? && s.db.rooms[id].memberCount == 1
            && k in s.db.members && s.db.members[k] == Record(Member, 1, Some(2), None)
            && ActiveOf(s.db.members, id) == {owner}
  {
    var owner := (id, d.createdBy);
    var s1 := Next(Run([]), Creating(id, d, 0));
    assert s1.db.members == map[owner := Record(Owner, 0, None, None)];
    var s2 := Next(s1, Joining(k, 1));
    assert s2.db.members == s1.db.members[k := Record(Member, 1, None, None)];
    LastLeaves(s2, k, owner);
  }

  lemma LastLeaves(s: Store, k: Key, owner: Key)
    requires k != owner && k.0 == owner.0 && k.0 in s.db.rooms
    requires s.db.members == map[owner := Record(Owner, 0, None, None), k := Record(Member, 1, None, None)]
    ensures var db := Next(s, Leaving(k, 2)).db;
            && db.rooms.Keys == s.db.rooms.Keys && db.rooms[k.0].archivedAt == s.db.rooms[k.0].archivedAt
            && db.rooms[k.0].memberCount == 1 && ActiveOf(db.members, k.0) == {owner}
            && db.members == s.db.members[k := Record(Member, 1, Some(2), None)]
  {
    assert ActiveOf(Left(s.db, k, 2).members, k.0) == {owner};
  }

  lemma LateJoin(s: Store, k: Key, now: int, active: set<Key>)
    requires Joins(s.db, k) && k in s.db.members && s.db.members[k].joinedAt <= now - SECOND
    requires ActiveOf(s.db.members, k.0) == active
    ensures var db := Next(s, Joining(k, now)).db;
            && k.0 in db.rooms && db.rooms[k.0].memberCount == s.db.rooms[k.0].memberCount
            && ActiveOf(db.members, k.0) == active + {k}
  {
    ActiveWithRecord(s.db.members, k, s.db.members[k].(leftAt := None), k.0);
  }

  lemma RunFour(a: Op, b: Op, c: Op, e: Op)
    ensures Run([a] + [b] + [c] + [e]) == Next(Next(Next(Next(Run([]), a), b), c), e)
  {
    RunAppend([], a);
    assert [] + [a] == [a];
    RunAppend([a], b);
    RunAppend([a] + [b], c);
    RunAppend([a] + [b] + [c], e);
  }
}
