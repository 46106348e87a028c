// The tables `rooms` and `room_members` as internal/repository/room_repo.go writes them, one
// transaction a step. Times are nanoseconds.
module RoomTables {
  import opened Prelude

  const SECOND: int := 1_000_000_000

  type Key = (string, string)

  datatype Role = Owner | Admin | Moderator | Member

  datatype Settings = Settings(
    allowReactions: bool,
    allowThreads: bool,
    messageRetention: int,
    slowModeSeconds: int,
    requireApproval: bool,
    onlyAdminsCanPost: bool)

  datatype Details = Details(name: string, description: string, avatarURL: string, settings: Settings)

  datatype Room = Room(
    kind: string,
    details: Details,
    createdBy: string,
    createdAt: int,
    updatedAt: int,
    archivedAt: Option<int>,
    memberCount: int)

  datatype Record = Record(role: Role, joinedAt: int, leftAt: Option<int>, bannedAt: Option<int>)

  /** Members are keyed by room and user. */
  datatype Tables = Tables(rooms: map<string, Room>, members: map<Key, Record>)

  function Open(db: Tables, id: string): Option<Room> {
    if id in db.rooms && db.rooms[id].archivedAt.None? then Some(db.rooms[id]) else None
  }

  predicate Active(db: Tables, k: Key) { k in db.members && db.members[k].leftAt.None? }

  function ActiveOf(members: map<Key, Record>, id: string): set<Key> {
    set k | k in members && k.0 == id && members[k].leftAt.None?
  }

  // ---------- Transactions ----------

  function Recounted(db: Tables, id: string, now: int): Tables {
    if id !in db.rooms then db
    else
      var room := db.rooms[id].(memberCount := |ActiveOf(db.members, id)|, updatedAt := now);
      db.(rooms := db.rooms[id := room])
  }

  function Inserted(db: Tables, id: string, room: Room, owner: string, now: int): Tables {
    Tables(db.rooms[id := room], db.members[(id, owner) := Record(Owner, now, None, None)])
  }

  /** Insert, or on conflict only clear the leaving time. */
  function Upserted(db: Tables, k: Key, role: Role, now: int): Tables {
    var record := if k in db.members then db.members[k].(leftAt := None) else Record(role, now, None, None);
    db.(members := db.members[k := record])
  }

  function Left(db: Tables, k: Key, now: int): Tables {
    if k !in db.members then db else db.(members := db.members[k := db.members[k].(leftAt := Some(now))])
  }

  /** A join recounts when the stored joining time is less than a second old. */
  function JoinedTx(db: Tables, k: Key, now: int): Tables {
    var db' := Upserted(db, k, Member, now);
    if db'.members[k].joinedAt > now - SECOND then Recounted(db', k.0, now) else db'
  }

  function Rewritten(db: Tables, id: string, details: Details, memberCount: int, now: int): Tables {
    if id !in db.rooms then db
    else
      var room := db.rooms[id].(details := details, memberCount := memberCount, updatedAt := now);
      db.(rooms := db.rooms[id := room])
  }

  function Archived(db: Tables, id: string, now: int): Tables {
    if id !in db.rooms then db else db.(rooms := db.rooms[id := db.rooms[id].(archivedAt := Some(now))])
  }

  class RoomRepository {
    var rooms: map<string, Room>
    var members: map<Key, Record>

    function Abs(): Tables
      reads this
    {
      Tables(rooms, members)
    }

    constructor ()
      ensures Abs() == Tables(map[], map[])
    {
      rooms, members := map[], map[];
    }

    /** The primary keys refuse a room or an owner that is there already. */
    method CreateRoomWithOwner(id: string, room: Room, owner: string, now: int) returns (ok: bool)
      modifies this
      ensures ok <==> id !in old(rooms) && (id, owner) !in old(members)
      ensures Abs() == if ok then Inserted(old(Abs()), id, room, owner, now) else old(Abs())
    {
      if id in rooms { return false; }
      if (id, owner) in members { return false; }
      rooms := rooms[id := room];
      members := members[(id, owner) := Record(Owner, now, None, None)];
      return true;
    }

    method GetByID(id: string) returns (room: Option<Room>)
      ensures room == Open(Abs(), id)
    {
      if id !in rooms { return None; }
      if rooms[id].archivedAt.Some? { return None; }
      return Some(rooms[id]);
    }

    method Update(id: string, details: Details, memberCount: int, now: int)
      modifies this`rooms
      ensures Abs() == Rewritten(old(Abs()), id, details, memberCount, now)
    {
      if id in rooms {
        rooms := rooms[id := rooms[id].(details := details, updatedAt := now, memberCount := memberCount)];
      }
    }

    method Delete(id: string, now: int)
      modifies this`rooms
      ensures Abs() == Archived(old(Abs()), id, now)
    {
      if id in rooms {
        rooms := rooms[id := rooms[id].(archivedAt := Some(now))];
      }
    }

    /** The foreign key refuses a member of a room that is not there. */
    method AddMember(k: Key, role: Role, now: int) returns (ok: bool)
      modifies this`members
      ensures ok <==> k.0 in rooms
      ensures Abs() == if ok then Upserted(old(Abs()), k, role, now) else old(Abs())
    {
      if k.0 !in rooms { return false; }
      if k in members {
        members := members[k := members[k].(leftAt := None)];
      } else {
        members := members[k := Record(role, now, None, None)];
      }
      return true;
    }

    method JoinRoomTx(k: Key, now: int) returns (ok: bool)
      modifies this
      ensures ok <==> k.0 in old(rooms)
      ensures Abs() == if ok then JoinedTx(old(Abs()), k, now) else old(Abs())
    {
      ok := AddMember(k, Member, now);
      if ok && members[k].joinedAt > now - SECOND {
        Recount(k.0, now);
      }
    }

    method Recount(id: string, now: int)
      modifies this`rooms
      ensures Abs() == Recounted(old(Abs()), id, now)
    {
      if id in rooms {
        rooms := rooms[id := rooms[id].(memberCount := |ActiveOf(members, id)|, updatedAt := now)];
      }
    }

    method LeaveRoomTx(k: Key, now: int)
      modifies this
      ensures Abs() == Recounted(Left(old(Abs()), k, now), k.0, now)
    {
      RemoveMember(k, now);
      Recount(k.0, now);
    }

    method RemoveMember(k: Key, now: int)
      modifies this`members
      ensures Abs() == Left(old(Abs()), k, now)
    {
      if k in members {
        members := members[k := members[k].(leftAt := Some(now))];
      }
    }

    method GetMember(k: Key) returns (record: Option<Record>)
      ensures record == if Active(Abs(), k) then Some(members[k]) else None
    {
      if k in members && members[k].leftAt.None? { return Some(members[k]); }
      return None;
    }

    method GetMemberRecord(k: Key) returns (record: Option<Record>)
      ensures record == if k in members then Some(members[k]) else None
    {
      if k in members { return Some(members[k]); }
      return None;
    }

    method IsMember(k: Key) returns (yes: bool)
      ensures yes <==> Active(Abs(), k)
    {
      yes := k in members && members[k].leftAt.None?;
    }
  }

  // ---------- Counting ----------

  predicate RoomsExist(db: Tables) { forall k | k in db.members :: k.0 in db.rooms }

  /** One record written: the active members gain it, lose it, or stay the same. */
  lemma ActiveWithRecord(members: map<Key, Record>, k: Key, record: Record, id: string)
    ensures var before, after := ActiveOf(members, id), ActiveOf(members[k := record], id);
            && (k.0 != id ==> after == before)
            && (k.0 == id && record.leftAt.None? ==> after == before + {k})
            && (k.0 == id && record.leftAt.Some? ==> after == before - {k})
  {
    var after := ActiveOf(members[k := record], id);
    forall q ensures q in after <==> if q == k then k.0 == id && record.leftAt.None? else q in ActiveOf(members, id) {}
  }

  /** How many active members of `id` a transaction brings. */
  function Growth(db: Tables, db': Tables, id: string): int {
    |ActiveOf(db'.members, id)| - |ActiveOf(db.members, id)|
  }

  lemma UpsertGrowth(db: Tables, k: Key, role: Role, now: int, id: string)
    ensures Growth(db, Upserted(db, k, role, now), id) == if k.0 == id && !Active(db, k) then 1 else 0
  {
    var record := Upserted(db, k, role, now).members[k];
    ActiveWithRecord(db.members, k, record, id);
    var before := ActiveOf(db.members, id);
    if k in before {
      assert before + {k} == before;
    }
  }

  lemma LeftGrowth(db: Tables, k: Key, now: int, id: string)
    ensures Growth(db, Left(db, k, now), id) == if k.0 == id && Active(db, k) then -1 else 0
  {
    if k in db.members {
      ActiveWithRecord(db.members, k, Left(db, k, now).members[k], id);
      var before := ActiveOf(db.members, id);
      if k !in before {
        assert before - {k} == before;
      }
    }
  }

  /** A room is created with its owner as the only member. */
  lemma InsertCounts(db: Tables, id: string, room: Room, owner: string, now: int)
    requires RoomsExist(db) && id !in db.rooms
    ensures ActiveOf(Inserted(db, id, room, owner, now).members, id) == {(id, owner)}
    ensures forall other | other != id :: ActiveOf(Inserted(db, id, room, owner, now).members, other) == ActiveOf(db.members, other)
  {
    ActiveWithRecord(db.members, (id, owner), Record(Owner, now, None, None), id);
    assert ActiveOf(db.members, id) == {};
    forall other | other != id
      ensures ActiveOf(Inserted(db, id, room, owner, now).members, other) == ActiveOf(db.members, other)
    {
      ActiveWithRecord(db.members, (id, owner), Record(Owner, now, None, None), other);
    }
  }
}
