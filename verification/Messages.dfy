// Message lifecycle and deduplication of internal/service/message_service.go over the rows of
// internal/repository/message_repo.go. The value functions take content as the sanitiser leaves it,
// one character a byte; times are nanoseconds.
module Messages {
  import opened Prelude
  import opened Channels
  import R = Reactions
  import RoomTables

  const DEDUP_TTL: int := 300_000_000_000
  const MAX_CONTENT: int := 4000

  datatype Message = Message(
    roomID: string,
    userID: string,
    content: string,
    parentID: Option<int>,
    createdAt: int,
    editedAt: Option<int>,
    deletedAt: Option<int>,
    deletedBy: Option<string>,
    reactions: R.Reactions)

  datatype Error =
    | EmptyContent | TooLong | RoomNotFound | NotMember | NotFound
    | AlreadyDeleted | NotAuthor | NotModerator

  datatype Result<+T> = Ok(value: T) | Err(error: Error)

  datatype Event = Created(id: int) | Edited(id: int) | Deleted(id: int)

  /** Redis keys that lapse, or the in-memory map of entries with the time they were made. */
  datatype Dedup = Redis(keys: map<string, Lapsing>) | InMemory(entries: map<string, Stamped>)

  datatype Lapsing = Lapsing(id: int, lapse: int)

  datatype Stamped = Stamped(id: int, at: int)

  datatype Store = Store(rows: map<int, Message>, published: seq<Event>, dedup: Dedup)

  /** What the room repository answers: rooms not archived, and active members with their roles. */
  datatype Rooms = Rooms(open: set<string>, active: map<RoomTables.Key, RoomTables.Role>)

  datatype Draft = Draft(roomID: string, userID: string, content: string, parentID: Option<int>, clientID: string)

  // ---------- Deduplication ----------

  function DedupKey(userID: string, clientID: string): string { userID + ":" + clientID }

  function FindDuplicate(s: Store, key: string, now: int): Option<int> {
    match s.dedup
    case Redis(keys) =>
      if key in keys && now < keys[key].lapse && keys[key].id in s.rows then Some(keys[key].id) else None
    case InMemory(entries) =>
      if key in entries && now - entries[key].at < DEDUP_TTL && entries[key].id in s.rows
      then Some(entries[key].id) else None
  }

  /** The in-memory map drops the entry of a key it found no duplicate for. */
  function Forget(d: Dedup, key: string): Dedup {
    match d
    case Redis(_) => d
    case InMemory(entries) => InMemory(entries - {key})
  }

  function Mark(d: Dedup, key: string, id: int, now: int): Dedup {
    match d
    case Redis(keys) => Redis(keys[key := Lapsing(id, now + DEDUP_TTL)])
    case InMemory(entries) => InMemory(entries[key := Stamped(id, now)])
  }

  // ---------- Operations ----------

  function Publish(s: Store, e: Event): Store {
    if s.dedup.Redis? then s.(published := s.published + [e]) else s
  }

  function Refusal(rooms: Rooms, d: Draft): Option<Error> {
    if d.content == "" then Some(EmptyContent)
    else if |d.content| > MAX_CONTENT then Some(TooLong)
    else if d.roomID !in rooms.open then Some(RoomNotFound)
    else if (d.roomID, d.userID) !in rooms.active then Some(NotMember)
    else None
  }

  function NewRow(d: Draft, now: int): Message {
    Message(d.roomID, d.userID, d.content, d.parentID, now, None, None, None, map[])
  }

  function Send(s: Store, rooms: Rooms, d: Draft, id: int, now: int): (Store, Result<int>) {
    var key := DedupKey(d.userID, d.clientID);
    var found := if d.clientID == "" then None else FindDuplicate(s, key, now);
    if found.Some? then (s, Ok(found.value))
    else
      var dedup := if d.clientID == "" then s.dedup else Forget(s.dedup, key);
      var refusal := Refusal(rooms, d);
      if refusal.Some? then (s.(dedup := dedup), Err(refusal.value))
      else
        var marked := if d.clientID == "" then dedup else Mark(dedup, key, id, now);
        (Publish(s.(rows := s.rows[id := NewRow(d, now)], dedup := marked), Created(id)), Ok(id))
  }

  function EditRefusal(s: Store, rooms: Rooms, id: int, requester: string, content: string): Option<Error> {
    if content == "" then Some(EmptyContent)
    else if |content| > MAX_CONTENT then Some(TooLong)
    else if id !in s.rows then Some(NotFound)
    else if s.rows[id].deletedAt.Some? then Some(AlreadyDeleted)
    else if s.rows[id].userID != requester then Some(NotAuthor)
    else if (s.rows[id].roomID, requester) !in rooms.active then Some(NotMember)
    else None
  }

  function Edit(s: Store, rooms: Rooms, id: int, requester: string, content: string, now: int): (Store, Option<Error>) {
    var refusal := EditRefusal(s, rooms, id, requester, content);
    if refusal.Some? || id !in s.rows then (s, refusal)
    else
      (Publish(s.(rows := s.rows[id := s.rows[id].(content := content, editedAt := Some(now))]), Edited(id)), None)
  }

  predicate MayModerate(role: RoomTables.Role) { role.Owner? || role.Admin? || role.Moderator? }

  function DeleteRefusal(s: Store, rooms: Rooms, id: int, requester: string): Option<Error> {
    if id !in s.rows then Some(NotFound)
    else if s.rows[id].deletedAt.Some? then Some(AlreadyDeleted)
    else if (s.rows[id].roomID, requester) !in rooms.active then Some(NotMember)
    else if s.rows[id].userID != requester && !MayModerate(rooms.active[(s.rows[id].roomID, requester)]) then
      Some(NotModerator)
    else None
  }

  function Delete(s: Store, rooms: Rooms, id: int, requester: string, now: int): (Store, Option<Error>) {
    var refusal := DeleteRefusal(s, rooms, id, requester);
    if refusal.Some? || id !in s.rows then (s, refusal)
    else
      (Publish(s.(rows := s.rows[id := s.rows[id].(deletedAt := Some(now), deletedBy := Some(requester))]),
               Deleted(id)), None)
  }

  function ReactRefusal(s: Store, rooms: Rooms, id: int, user: string): Option<Error> {
    if id !in s.rows then Some(NotFound)
    else if s.rows[id].deletedAt.Some? then Some(AlreadyDeleted)
    else if (s.rows[id].roomID, user) !in rooms.active then Some(NotMember)
    else None
  }

  function React(s: Store, rooms: Rooms, id: int, op: R.Op): (Store, Option<Error>) {
    var refusal := ReactRefusal(s, rooms, id, op.user);
    if refusal.Some? || id !in s.rows then (s, refusal)
    else (s.(rows := s.rows[id := s.rows[id].(reactions := R.Apply(s.rows[id].reactions, op))]), None)
  }

  /** `clean` is what the sanitiser and the trimming make of a text. */
  class MessageService {
    const pubsub: bool
    const clean: string -> string
    var rows: map<int, Message>
    var published: seq<Event>
    var keys: map<string, Lapsing>
    var clientDedup: map<string, Stamped>

    function Abs(): Store
      reads this
    {
      Store(rows, published, if pubsub then Redis(keys) else InMemory(clientDedup))
    }

    constructor (pubsub: bool, clean: string -> string)
      ensures this.pubsub == pubsub && this.clean == clean
      ensures Abs() == Store(map[], [], if pubsub then Redis(map[]) else InMemory(map[]))
    {
      this.pubsub, this.clean := pubsub, clean;
      rows, published, keys, clientDedup := map[], [], map[], map[];
    }

    method SendMessage(rooms: Rooms, d: Draft, id: int, now: int) returns (r: Result<int>)
      modifies this
      ensures (Abs(), r) == Send(old(Abs()), rooms, d.(content := clean(d.content)), id, now)
    {
      if d.clientID != "" {
        var existing := CheckDedup(d.userID, d.clientID, now);
        if existing.Some? { return Ok(existing.value); }
      }
      var content := clean(d.content);
      if content == "" { return Err(EmptyContent); }
      if |content| > 4000 { return Err(TooLong); }
      if d.roomID !in rooms.open { return Err(RoomNotFound); }
      if (d.roomID, d.userID) !in rooms.active { return Err(NotMember); }
      rows := rows[id := Message(d.roomID, d.userID, content, d.parentID, now, None, None, None, map[])];
      if d.clientID != "" { MarkDedup(d.userID, d.clientID, id, now); }
      if pubsub { published := published + [Created(id)]; }
      return Ok(id);
    }

    method CheckDedup(userID: string, clientID: string, now: int) returns (existing: Option<int>)
      modifies this`clientDedup
      ensures existing == FindDuplicate(old(Abs()), DedupKey(userID, clientID), now)
      ensures Abs() == if existing.Some? then old(Abs())
                       else old(Abs()).(dedup := Forget(old(Abs()).dedup, DedupKey(userID, clientID)))
    {
      var key := userID + ":" + clientID;
      if pubsub {
        if key !in keys || keys[key].lapse <= now { return None; }
        if keys[key].id in rows { return Some(keys[key].id); }
        return None;
      }
      if key in clientDedup {
        var entry := clientDedup[key];
        if now - entry.at < DEDUP_TTL {
          if entry.id in rows { return Some(entry.id); }
        }
        clientDedup := clientDedup - {key};
      }
      assert key !in clientDedup ==> clientDedup - {key} == clientDedup;
      return None;
    }

    method MarkDedup(userID: string, clientID: string, id: int, now: int)
      modifies this`keys, this`clientDedup
      ensures Abs() == old(Abs()).(dedup := Mark(old(Abs()).dedup, DedupKey(userID, clientID), id, now))
    {
      var key := userID + ":" + clientID;
      if pubsub {
        keys := keys[key := Lapsing(id, now + DEDUP_TTL)];
        return;
      }
      clientDedup := clientDedup[key := Stamped(id, now)];
    }

    method EditMessage(rooms: Rooms, id: int, requester: string, text: string, now: int) returns (e: Option<Error>)
      modifies this`rows, this`published
      ensures (Abs(), e) == Edit(old(Abs()), rooms, id, requester, clean(text), now)
    {
      var content := clean(text);
      if content == "" { return Some(EmptyContent); }
      if |content| > 4000 { return Some(TooLong); }
      if id !in rows { return Some(NotFound); }
      var msg := rows[id];
      if msg.deletedAt.Some? { return Some(AlreadyDeleted); }
      if msg.userID != requester { return Some(NotAuthor); }
      if (msg.roomID, requester) !in rooms.active { return Some(NotMember); }
      rows := rows[id := msg.(content := content, editedAt := Some(now))];
      if pubsub { published := published + [Edited(id)]; }
      return None;
    }

    method DeleteMessage(rooms: Rooms, id: int, requester: string, now: int) returns (e: Option<Error>)
      modifies this`rows, this`published
      ensures (Abs(), e) == Delete(old(Abs()), rooms, id, requester, now)
    {
      if id !in rows { return Some(NotFound); }
      var msg := rows[id];
      if msg.deletedAt.Some? { return Some(AlreadyDeleted); }
      if (msg.roomID, requester) !in rooms.active { return Some(NotMember); }
      if msg.userID != requester {
        var role := rooms.active[(msg.roomID, requester)];
        if !role.Owner? && !role.Admin? && !role.Moderator? { return Some(NotModerator); }
      }
      rows := rows[id := msg.(deletedAt := Some(now), deletedBy := Some(requester))];
      if pubsub { published := published + [Deleted(id)]; }
      return None;
    }

    method AddReaction(rooms: Rooms, id: int, emoji: string, user: string) returns (e: Option<Error>)
      modifies this`rows
      ensures (Abs(), e) == React(old(Abs()), rooms, id, R.Op(true, emoji, user))
    {
      if id !in rows { return Some(NotFound); }
      if rows[id].deletedAt.Some? { return Some(AlreadyDeleted); }
      if (rows[id].roomID, user) !in rooms.active { return Some(NotMember); }
      var after := R.AddTransform(rows[id].reactions, emoji, user);
      rows := rows[id := rows[id].(reactions := after)];
      return None;
    }

    method RemoveReaction(rooms: Rooms, id: int, emoji: string, user: string) returns (e: Option<Error>)
      modifies this`rows
      ensures (Abs(), e) == React(old(Abs()), rooms, id, R.Op(false, emoji, user))
    {
      if id !in rows { return Some(NotFound); }
      if rows[id].deletedAt.Some? { return Some(AlreadyDeleted); }
      if (rows[id].roomID, user) !in rooms.active { return Some(NotMember); }
      var after := R.RemoveTransform(rows[id].reactions, emoji, user);
      rows := rows[id := rows[id].(reactions := after)];
      return None;
    }
  }

  // ---------- Serial runs ----------

  datatype Step =
    | SendStep(draft: Draft, id: int)
    | EditStep(id: int, requester: string, content: string)
    | DeleteStep(id: int, requester: string)
    | ReactStep(id: int, op: R.Op)
    | SetRooms(rooms: Rooms)

  datatype Timed = Timed(now: int, step: Step)

  /** A row that SendMessage made, and for whom. */
  datatype Creation = Creation(userID: string, clientID: string, at: int, id: int)

  datatype World = World(store: Store, rooms: Rooms, clock: int, creations: seq<Creation>)

  function Start(dedup: Dedup): World { World(Store(map[], [], dedup), Rooms({}, map[]), 0, []) }

  /** Ids are fresh, user ids carry no colon, and the clock does not go back. */
  predicate Enabled(w: World, t: Timed) {
    w.clock <= t.now && (t.step.SendStep? ==> t.step.id !in w.store.rows && ':' !in t.step.draft.userID)
  }

  function Next(w: World, t: Timed): World {
    if !Enabled(w, t) then w
    else
      match t.step
      case SendStep(d, id) =>
        var s := Send(w.store, w.rooms, d, id, t.now).0;
        w.(store := s, clock := t.now,
           creations := if id in s.rows then w.creations + [Creation(d.userID, d.clientID, t.now, id)] else w.creations)
      case EditStep(id, requester, content) =>
        w.(store := Edit(w.store, w.rooms, id, requester, content, t.now).0, clock := t.now)
      case DeleteStep(id, requester) =>
        w.(store := Delete(w.store, w.rooms, id, requester, t.now).0, clock := t.now)
      case ReactStep(id, op) => w.(store := React(w.store, w.rooms, id, op).0, clock := t.now)
      case SetRooms(rooms) => w.(rooms := rooms, clock := t.now)
  }

  function Run(dedup: Dedup, steps: seq<Timed>): World {
    if steps == [] then Start(dedup) else Next(Run(dedup, steps[..|steps| - 1]), steps[|steps| - 1])
  }

  // ---------- Lifecycle ----------

  predicate ContentOk(m: Message) { m.content != "" && |m.content| <= MAX_CONTENT }

  ghost predicate RowsOk(s: Store) { forall id | id in s.rows :: ContentOk(s.rows[id]) }

  /** Everything one step may do to an existing row, and who may do it. */
  lemma StepOnRow(w: World, t: Timed, id: int)
    requires id in w.store.rows
    ensures var w' := Next(w, t);
            id in w'.store.rows &&
            var m, m' := w.store.rows[id], w'.store.rows[id];
            && m'.roomID == m.roomID && m'.userID == m.userID
            && m'.parentID == m.parentID && m'.createdAt == m.createdAt
            && (m.deletedAt.Some? ==> m' == m)
            && (m'.content != m.content ==>
                  t.step == EditStep(id, m.userID, m'.content) && (m.roomID, m.userID) in w.rooms.active)
            && (m'.deletedAt != m.deletedAt ==>
                  && t.step.DeleteStep? && t.step.id == id
                  && m'.deletedAt == Some(t.now) && m'.deletedBy == Some(t.step.requester)
                  && (m.roomID, t.step.requester) in w.rooms.active
                  && (t.step.requester == m.userID || MayModerate(w.rooms.active[(m.roomID, t.step.requester)])))
            && (m'.reactions != m.reactions ==>
                  t.step.ReactStep? && t.step.id == id && (m.roomID, t.step.op.user) in w.rooms.active)
  {
  }

  lemma NextRowsOk(w: World, t: Timed)
    requires RowsOk(w.store)
    ensures RowsOk(Next(w, t).store)
  {
  }

  /** In every serial run stored content is never empty and never over 4000 bytes. */
  lemma {:induction false} StoredContentOk(dedup: Dedup, steps: seq<Timed>)
    ensures RowsOk(Run(dedup, steps).store)
  {
    if steps != [] {
      StoredContentOk(dedup, steps[..|steps| - 1]);
      NextRowsOk(Run(dedup, steps[..|steps| - 1]), steps[|steps| - 1]);
    }
  }

  /** Over any stretch of a serial run identity fields never change, and a deleted row is frozen for good. */
  lemma {:induction false} RowsKeepTheirIdentity(dedup: Dedup, steps: seq<Timed>, n: nat, id: int)
    requires n <= |steps| && id in Run(dedup, steps[..n]).store.rows
    ensures id in Run(dedup, steps).store.rows
    ensures var m, m' := Run(dedup, steps[..n]).store.rows[id], Run(dedup, steps).store.rows[id];
            && m'.roomID == m.roomID && m'.userID == m.userID
            && m'.parentID == m.parentID && m'.createdAt == m.createdAt
            && (m.deletedAt.Some? ==> m' == m)
    decreases |steps| - n
  {
    if n < |steps| {
      var before := steps[..|steps| - 1];
      assert before[..n] == steps[..n];
      RowsKeepTheirIdentity(dedup, before, n, id);
      StepOnRow(Run(dedup, before), steps[|steps| - 1], id);
    } else {
      assert steps[..n] == steps;
    }
  }

  // ---------- Deduplication over runs ----------

  lemma KeysDiffer(userID: string, clientID: string, userID': string, clientID': string)
    requires ':' !in userID && ':' !in userID'
    ensures DedupKey(userID, clientID) == DedupKey(userID', clientID') <==> userID == userID' && clientID == clientID'
  {
    var k, k' := DedupKey(userID, clientID), DedupKey(userID', clientID');
    assert k == userID + [':'] + clientID && k' == userID' + [':'] + clientID';
    FirstColon(userID, clientID);
    FirstColon(userID', clientID');
    assert k[..|userID|] == userID && k'[..|userID'|] == userID';
    assert k[|userID| + 1..] == clientID && k'[|userID'| + 1..] == clientID';
  }

  /** The newest creation of a key is what the dedup store knows, until it has lapsed. */
  ghost predicate Remembers(w: World, c: Creation) {
    && ':' !in c.userID && c.id in w.store.rows && c.at <= w.clock
    && (c.clientID != "" && w.clock < c.at + DEDUP_TTL ==>
          var key := DedupKey(c.userID, c.clientID);
          match w.store.dedup
          case Redis(keys) => key in keys && keys[key] == Lapsing(c.id, c.at + DEDUP_TTL)
          case InMemory(entries) => key in entries && entries[key] == Stamped(c.id, c.at))
  }

  predicate SamePair(c: Creation, userID: string, clientID: string) {
    c.userID == userID && c.clientID == clientID
  }

  predicate Spaced(cs: seq<Creation>) {
    forall i, j | 0 <= i < j < |cs| && cs[i].clientID != "" && SamePair(cs[j], cs[i].userID, cs[i].clientID) ::
      cs[j].at - cs[i].at >= DEDUP_TTL
  }

  ghost predicate DedupOk(w: World) {
    (forall c | c in w.creations :: Remembers(w, c)) && Spaced(w.creations)
  }

  /** Until its TTL is over a creation answers every retry, and nothing changes. */
  lemma RetryAnswered(w: World, c: Creation, d: Draft, id: int, now: int)
    requires Remembers(w, c) && c.clientID != "" && SamePair(c, d.userID, d.clientID)
    requires w.clock <= now < c.at + DEDUP_TTL
    ensures Send(w.store, w.rooms, d, id, now) == (w.store, Ok(c.id))
  {
  }

  lemma SendRemembers(w: World, t: Timed, c: Creation)
    requires Enabled(w, t) && t.step.SendStep? && c in w.creations && Remembers(w, c)
    ensures Remembers(Next(w, t), c)
  {
    var d := t.step.draft;
    KeysDiffer(c.userID, c.clientID, d.userID, d.clientID);
    if c.clientID != "" && SamePair(c, d.userID, d.clientID) && t.now < c.at + DEDUP_TTL {
      RetryAnswered(w, c, d, t.step.id, t.now);
    }
  }

  lemma NextRemembers(w: World, t: Timed, c: Creation)
    requires c in w.creations && Remembers(w, c)
    ensures Remembers(Next(w, t), c)
  {
    if Enabled(w, t) && t.step.SendStep? {
      SendRemembers(w, t, c);
    }
  }

  lemma NextSpaced(w: World, t: Timed)
    requires DedupOk(w)
    ensures Spaced(Next(w, t).creations)
    ensures forall c | c in Next(w, t).creations && c !in w.creations :: Remembers(Next(w, t), c)
  {
    var w' := Next(w, t);
    if w'.creations != w.creations {
      var d := t.step.draft;
      forall i | 0 <= i < |w.creations| && w.creations[i].clientID != "" && SamePair(w.creations[i], d.userID, d.clientID)
        ensures t.now - w.creations[i].at >= DEDUP_TTL
      {
        assert Remembers(w, w.creations[i]);
        if t.now < w.creations[i].at + DEDUP_TTL {
          RetryAnswered(w, w.creations[i], d, t.step.id, t.now);
        }
      }
    }
  }

  lemma {:induction false} RunDedupOk(dedup: Dedup, steps: seq<Timed>)
    ensures DedupOk(Run(dedup, steps))
  {
    if steps != [] {
      var w, t := Run(dedup, steps[..|steps| - 1]), steps[|steps| - 1];
      RunDedupOk(dedup, steps[..|steps| - 1]);
      NextSpaced(w, t);
      forall c | c in Next(w, t).creations ensures Remembers(Next(w, t), c) {
        if c in w.creations { NextRemembers(w, t, c); }
      }
    }
  }

  /** Creations for one user and client id are at least the TTL apart, on either back end. */
  lemma CreationsAreSpaced(dedup: Dedup, steps: seq<Timed>, i: nat, j: nat)
    requires var cs := Run(dedup, steps).creations;
             i < j < |cs| && cs[i].clientID != "" && SamePair(cs[j], cs[i].userID, cs[i].clientID)
    ensures var cs := Run(dedup, steps).creations; cs[j].at - cs[i].at >= DEDUP_TTL
  {
    RunDedupOk(dedup, steps);
  }

  /** A call within the TTL of a creation returns that first message and changes nothing at all. */
  lemma RetriesReturnTheFirst(dedup: Dedup, steps: seq<Timed>, i: nat, d: Draft, id: int, now: int)
    requires var w := Run(dedup, steps);
             && i < |w.creations| && w.creations[i].clientID != ""
             && SamePair(w.creations[i], d.userID, d.clientID)
             && w.clock <= now < w.creations[i].at + DEDUP_TTL
    ensures var w := Run(dedup, steps);
            Send(w.store, w.rooms, d, id, now) == (w.store, Ok(w.creations[i].id))
  {
    RunDedupOk(dedup, steps);
    var w := Run(dedup, steps);
    RetryAnswered(w, w.creations[i], d, id, now);
  }

  // ---------- The two back ends ----------

  /** Live entries are the same on both sides. */
  ghost predicate SameMemory(keys: map<string, Lapsing>, entries: map<string, Stamped>, clock: int) {
    && (forall k | k in entries :: k in keys && keys[k] == Lapsing(entries[k].id, entries[k].at + DEDUP_TTL))
    && (forall k | k in keys && k !in entries :: keys[k].lapse <= clock)
  }

  ghost predicate Coupled(a: World, b: World) {
    && a.store.dedup.Redis? && b.store.dedup.InMemory?
    && a.store.rows == b.store.rows && a.rooms == b.rooms && a.clock == b.clock && a.creations == b.creations
    && SameMemory(a.store.dedup.keys, b.store.dedup.entries, a.clock)
    && KeysNameRows(a.store.dedup.keys, a.store.rows)
  }

  ghost predicate KeysNameRows(keys: map<string, Lapsing>, rows: map<int, Message>) {
    forall k | k in keys :: keys[k].id in rows
  }

  lemma CoupledAnswers(a: World, b: World, d: Draft, id: int, now: int)
    requires Coupled(a, b) && a.clock <= now
    ensures Send(a.store, a.rooms, d, id, now).1 == Send(b.store, b.rooms, d, id, now).1
    ensures Send(a.store, a.rooms, d, id, now).0.rows == Send(b.store, b.rooms, d, id, now).0.rows
  {
  }

  lemma SendCoupled(a: World, b: World, t: Timed)
    requires Coupled(a, b) && Enabled(a, t) && t.step.SendStep?
    ensures Coupled(Next(a, t), Next(b, t))
  {
    CoupledAnswers(a, b, t.step.draft, t.step.id, t.now);
  }

  lemma OtherCoupled(a: World, b: World, t: Timed)
    requires Coupled(a, b) && Enabled(a, t) && !t.step.SendStep?
    ensures Coupled(Next(a, t), Next(b, t))
  {
    var a', b' := Next(a, t), Next(b, t);
    assert a'.store.dedup == a.store.dedup && b'.store.dedup == b.store.dedup;
    assert a'.store.rows == b'.store.rows;
    assert KeysNameRows(a.store.dedup.keys, a'.store.rows);
  }

  lemma NextCoupled(a: World, b: World, t: Timed)
    requires Coupled(a, b)
    ensures Coupled(Next(a, t), Next(b, t))
  {
    if Enabled(a, t) && t.step.SendStep? {
      SendCoupled(a, b, t);
    } else if Enabled(a, t) {
      OtherCoupled(a, b, t);
    }
  }

  /** The in-memory map refines the TTL store: same rows, same creations, same answer to every call. */
  lemma {:induction false} BackEndsAgree(steps: seq<Timed>)
    ensures Coupled(Run(Redis(map[]), steps), Run(InMemory(map[]), steps))
  {
    if steps != [] {
      BackEndsAgree(steps[..|steps| - 1]);
      NextCoupled(Run(Redis(map[]), steps[..|steps| - 1]), Run(InMemory(map[]), steps[..|steps| - 1]),
                  steps[|steps| - 1]);
    }
  }

  lemma BackEndsAnswerAlike(steps: seq<Timed>, d: Draft, id: int, now: int)
    requires Run(Redis(map[]), steps).clock <= now
    ensures var a, b := Run(Redis(map[]), steps), Run(InMemory(map[]), steps);
            && Send(a.store, a.rooms, d, id, now).1 == Send(b.store, b.rooms, d, id, now).1
            && Send(a.store, a.rooms, d, id, now).0.rows == Send(b.store, b.rooms, d, id, now).0.rows
  {
    BackEndsAgree(steps);
    CoupledAnswers(Run(Redis(map[]), steps), Run(InMemory(map[]), steps), d, id, now);
  }

  // ---------- Who gets a new row ----------

  predicate EmptyDedup(dedup: Dedup) { dedup == Redis(map[]) || dedup == InMemory(map[]) }

  predicate MadeBy(cs: seq<Creation>, key: string, id: int, at: int) {
    exists i | 0 <= i < |cs| :: cs[i].clientID != "" && DedupKey(cs[i].userID, cs[i].clientID) == key &&
                                cs[i].id == id && cs[i].at == at
  }

  /** Every dedup entry was made by a creation. */
  ghost predicate EntriesMade(w: World) {
    match w.store.dedup
    case Redis(keys) => forall k | k in keys :: MadeBy(w.creations, k, keys[k].id, keys[k].lapse - DEDUP_TTL)
    case InMemory(entries) => forall k | k in entries :: MadeBy(w.creations, k, entries[k].id, entries[k].at)
  }

  lemma MadeByLonger(cs: seq<Creation>, c: Creation, key: string, id: int, at: int)
    requires MadeBy(cs, key, id, at)
    ensures MadeBy(cs + [c], key, id, at)
  {
    var i :| 0 <= i < |cs| && cs[i].clientID != "" && DedupKey(cs[i].userID, cs[i].clientID) == key &&
             cs[i].id == id && cs[i].at == at;
    assert (cs + [c])[i] == cs[i];
  }

  lemma SendEntriesMade(w: World, t: Timed)
    requires EntriesMade(w) && Enabled(w, t) && t.step.SendStep?
    ensures EntriesMade(Next(w, t))
  {
    var w', d, id := Next(w, t), t.step.draft, t.step.id;
    if w'.creations != w.creations {
      var c := Creation(d.userID, d.clientID, t.now, id);
      assert w'.creations == w.creations + [c] && w'.creations[|w.creations|] == c;
      forall k, i, at | MadeBy(w.creations, k, i, at) ensures MadeBy(w'.creations, k, i, at) {
        MadeByLonger(w.creations, c, k, i, at);
      }
      assert c.clientID != "" ==> MadeBy(w'.creations, DedupKey(d.userID, d.clientID), id, t.now);
    }
  }

  lemma NextEntriesMade(w: World, t: Timed)
    requires EntriesMade(w)
    ensures EntriesMade(Next(w, t))
  {
    if Enabled(w, t) && t.step.SendStep? {
      SendEntriesMade(w, t);
    } else {
      assert Next(w, t).store.dedup == w.store.dedup && Next(w, t).creations == w.creations;
    }
  }

  lemma {:induction false} RunEntriesMade(dedup: Dedup, steps: seq<Timed>)
    requires EmptyDedup(dedup)
    ensures EntriesMade(Run(dedup, steps))
  {
    if steps != [] {
      var w, t := Run(dedup, steps[..|steps| - 1]), steps[|steps| - 1];
      RunEntriesMade(dedup, steps[..|steps| - 1]);
      NextEntriesMade(w, t);
    }
  }

  /** The creation answers this call: same user and client id, less than five minutes ago. */
  predicate Answers(c: Creation, d: Draft, now: int) {
    c.clientID != "" && c.userID == d.userID && c.clientID == d.clientID && now - c.at < 300_000_000_000
  }

  predicate Answered(w: World, d: Draft, now: int) {
    exists i | 0 <= i < |w.creations| :: Answers(w.creations[i], d, now)
  }

  lemma FoundIffAnswered(w: World, d: Draft, now: int)
    requires DedupOk(w) && EntriesMade(w) && w.clock <= now && ':' !in d.userID && d.clientID != ""
    ensures FindDuplicate(w.store, DedupKey(d.userID, d.clientID), now).Some? <==> Answered(w, d, now)
  {
    var key := DedupKey(d.userID, d.clientID);
    if i :| 0 <= i < |w.creations| && Answers(w.creations[i], d, now) {
      assert Remembers(w, w.creations[i]);
    }
    if FindDuplicate(w.store, key, now).Some? {
      var at := match w.store.dedup case Redis(keys) => keys[key].lapse - DEDUP_TTL case InMemory(entries) => entries[key].at;
      var id := FindDuplicate(w.store, key, now).value;
      assert MadeBy(w.creations, key, id, at);
      var i :| 0 <= i < |w.creations| && w.creations[i].clientID != "" &&
               DedupKey(w.creations[i].userID, w.creations[i].clientID) == key && w.creations[i].at == at;
      assert Remembers(w, w.creations[i]);
      KeysDiffer(w.creations[i].userID, w.creations[i].clientID, d.userID, d.clientID);
      assert Answers(w.creations[i], d, now);
    }
  }

  /** The refusals of a send, in the order of the checks. */
  predicate Refused(rooms: Rooms, d: Draft, e: Error) {
    if |d.content| == 0 then e == EmptyContent
    else if |d.content| > 4000 then e == TooLong
    else if d.roomID !in rooms.open then e == RoomNotFound
    else e == NotMember && (d.roomID, d.userID) !in rooms.active
  }

  /** Nothing stored and nothing published. */
  predicate NothingSaid(s: Store, s': Store) { s'.rows == s.rows && s'.published == s.published }

  /** The row of the draft is stored under the id, and a Redis back end publishes it once. */
  predicate Said(s: Store, s': Store, d: Draft, id: int, now: int) {
    && s'.rows.Keys == s.rows.Keys + {id} && (forall x | x in s.rows && x != id :: s'.rows[x] == s.rows[x])
    && var m := s'.rows[id];
    && m.roomID == d.roomID && m.userID == d.userID && m.content == d.content && m.parentID == d.parentID
    && m.createdAt == now && m.editedAt.None? && m.deletedAt.None? && m.deletedBy.None? && m.reactions == map[]
    && s'.published == s.published + (if s.dedup.Redis? then [Created(id)] else [])
  }

  /** Every outcome of a send in every run: the first message within five minutes of it, the first
      failing check's refusal, or a new row of the draft's own. */
  lemma SendOutcome(dedup: Dedup, steps: seq<Timed>, d: Draft, id: int, now: int)
    requires EmptyDedup(dedup)
    requires var w := Run(dedup, steps); w.clock <= now && id !in w.store.rows && ':' !in d.userID
    ensures var w := Run(dedup, steps);
            var (s', r) := Send(w.store, w.rooms, d, id, now);
            if d.clientID != "" && Answered(w, d, now) then
              s' == w.store && r.Ok? && exists i | 0 <= i < |w.creations| ::
                                           Answers(w.creations[i], d, now) && w.creations[i].id == r.value
            else if |d.content| == 0 || |d.content| > 4000 || d.roomID !in w.rooms.open
                    || (d.roomID, d.userID) !in w.rooms.active then
              NothingSaid(w.store, s') && r.Err? && Refused(w.rooms, d, r.error)
            else
              r == Ok(id) && Said(w.store, s', d, id, now)
  {
    RunDedupOk(dedup, steps);
    RunEntriesMade(dedup, steps);
    var w := Run(dedup, steps);
    if d.clientID != "" {
      FoundIffAnswered(w, d, now);
      if Answered(w, d, now) {
        var i :| 0 <= i < |w.creations| && Answers(w.creations[i], d, now);
        RetryAnswered(w, w.creations[i], d, id, now);
      }
    }
  }

  // ---------- What rows say ----------

  /** Step `n` is a send that made the row. */
  predicate Makes(dedup: Dedup, steps: seq<Timed>, n: nat, id: int) {
    n < |steps| && steps[n].step.SendStep? && steps[n].step.id == id && Enabled(Run(dedup, steps[..n]), steps[n])
    && id in Run(dedup, steps[..n + 1]).store.rows
  }

  lemma SendMakesTheDraft(w: World, t: Timed)
    requires Enabled(w, t) && t.step.SendStep? && t.step.id in Next(w, t).store.rows
    ensures var m, d := Next(w, t).store.rows[t.step.id], t.step.draft;
            && m.roomID == d.roomID && m.userID == d.userID && m.parentID == d.parentID
            && m.content == d.content && m.createdAt == t.now
            && d.roomID in w.rooms.open && (d.roomID, d.userID) in w.rooms.active
  {
  }

  /** A row says for good what its draft said of room, author, parent and time, and its author was an
      active member of that open room when it was made. */
  lemma RowsSayTheirDraft(dedup: Dedup, steps: seq<Timed>, n: nat, id: int)
    requires Makes(dedup, steps, n, id)
    ensures id in Run(dedup, steps).store.rows
    ensures var m, d, w := Run(dedup, steps).store.rows[id], steps[n].step.draft, Run(dedup, steps[..n]);
            && m.roomID == d.roomID && m.userID == d.userID && m.parentID == d.parentID && m.createdAt == steps[n].now
            && d.roomID in w.rooms.open && (d.roomID, d.userID) in w.rooms.active
  {
    assert steps[..n + 1][..n] == steps[..n];
    SendMakesTheDraft(Run(dedup, steps[..n]), steps[n]);
    RowsKeepTheirIdentity(dedup, steps, n + 1, id);
  }

  /** And there is no other way to a row. */
  lemma {:induction false} RowsAreSent(dedup: Dedup, steps: seq<Timed>, id: int)
    requires id in Run(dedup, steps).store.rows
    ensures exists n: nat :: Makes(dedup, steps, n, id)
  {
    var before := steps[..|steps| - 1];
    if id in Run(dedup, before).store.rows {
      RowsAreSent(dedup, before, id);
      var n: nat :| Makes(dedup, before, n, id);
      assert before[..n] == steps[..n] && before[..n + 1] == steps[..n + 1];
      assert Makes(dedup, steps, n, id);
    } else {
      assert steps[..|before|] == before && steps[..|before| + 1] == steps;
      assert Makes(dedup, steps, |before|, id);
    }
  }

  // ---------- What the other calls do ----------

  /** Only row `id` differs, and a Redis back end publishes `e` once. */
  predicate OneRowSaid(s: Store, s': Store, id: int, e: Event) {
    && s'.rows.Keys == s.rows.Keys && (forall x | x in s.rows && x != id :: s'.rows[x] == s.rows[x])
    && s'.dedup == s.dedup && s'.published == s.published + (if s.dedup.Redis? then [e] else [])
  }

  /** An edit is accepted exactly from the author, an active member, of a live message, and stores the new text. */
  lemma EditOutcome(s: Store, rooms: Rooms, id: int, requester: string, content: string, now: int)
    ensures var (s', e) := Edit(s, rooms, id, requester, content, now);
            && (e == None <==>
                  && 1 <= |content| <= 4000 && id in s.rows && s.rows[id].deletedAt.None?
                  && s.rows[id].userID == requester && (s.rows[id].roomID, requester) in rooms.active)
            && (e.Some? ==> s' == s)
            && (e == None ==>
                  && OneRowSaid(s, s', id, Edited(id))
                  && s'.rows[id] == s.rows[id].(content := content, editedAt := Some(now)))
            && (e == Some(EmptyContent) <==> |content| == 0) && (e == Some(TooLong) <==> |content| > 4000)
            && (e == Some(NotFound) ==> id !in s.rows)
            && (e == Some(AlreadyDeleted) ==> id in s.rows && s.rows[id].deletedAt.Some?)
            && (e == Some(NotAuthor) ==> id in s.rows && s.rows[id].userID != requester)
            && (e == Some(NotMember) ==> id in s.rows && (s.rows[id].roomID, requester) !in rooms.active)
  {
  }

  /** A deletion is accepted exactly from an active member who wrote the live message or is an owner,
      admin or moderator of its room. */
  lemma DeleteOutcome(s: Store, rooms: Rooms, id: int, requester: string, now: int)
    ensures var (s', e) := Delete(s, rooms, id, requester, now);
            && (e == None <==>
                  && id in s.rows && s.rows[id].deletedAt.None? && (s.rows[id].roomID, requester) in rooms.active
                  && (s.rows[id].userID == requester ||
                      rooms.active[(s.rows[id].roomID, requester)]
                        in {RoomTables.Owner, RoomTables.Admin, RoomTables.Moderator}))
            && (e.Some? ==> s' == s)
            && (e == None ==>
                  && OneRowSaid(s, s', id, Deleted(id))
                  && s'.rows[id] == s.rows[id].(deletedAt := Some(now), deletedBy := Some(requester)))
            && (e == Some(NotFound) <==> id !in s.rows)
            && (e == Some(AlreadyDeleted) <==> id in s.rows && s.rows[id].deletedAt.Some?)
            && (e == Some(NotMember) ==> id in s.rows && (s.rows[id].roomID, requester) !in rooms.active)
            && (e == Some(NotModerator) ==> id in s.rows && s.rows[id].userID != requester)
  {
  }

  /** A reaction call is accepted exactly from an active member on a live message; it publishes nothing. */
  predicate MayReact(s: Store, rooms: Rooms, id: int, user: string) {
    id in s.rows && s.rows[id].deletedAt.None? && (s.rows[id].roomID, user) in rooms.active
  }

  lemma ReactOutcome(s: Store, rooms: Rooms, id: int, op: R.Op)
    ensures var (s', e) := React(s, rooms, id, op);
            && (e == None <==> MayReact(s, rooms, id, op.user))
            && (e.Some? ==> s' == s)
            && (e == None ==>
                  s' == s.(rows := s.rows[id := s.rows[id].(reactions := R.Apply(s.rows[id].reactions, op))]))
            && (e == Some(NotFound) <==> id !in s.rows)
            && (e == Some(AlreadyDeleted) <==> id in s.rows && s.rows[id].deletedAt.Some?)
  {
  }

  /** The accepted reaction calls on a row, in order. */
  function ReactionsOn(dedup: Dedup, steps: seq<Timed>, id: int): seq<R.Op> {
    if steps == [] then []
    else
      var before, t := steps[..|steps| - 1], steps[|steps| - 1];
      var w := Run(dedup, before);
      ReactionsOn(dedup, before, id) +
      (if t.step.ReactStep? && t.step.id == id && w.clock <= t.now && MayReact(w.store, w.rooms, id, t.step.op.user)
       then [t.step.op] else [])
  }

  lemma RowsStay(w: World, t: Timed)
    ensures w.store.rows.Keys <= Next(w, t).store.rows.Keys
  {
  }

  lemma {:induction false} NoReactionsWithoutRow(dedup: Dedup, steps: seq<Timed>, id: int)
    requires id !in Run(dedup, steps).store.rows
    ensures ReactionsOn(dedup, steps, id) == []
  {
    if steps != [] {
      RowsStay(Run(dedup, steps[..|steps| - 1]), steps[|steps| - 1]);
      NoReactionsWithoutRow(dedup, steps[..|steps| - 1], id);
    }
  }

  lemma StepOnReactions(w: World, t: Timed, id: int, ops: seq<R.Op>)
    requires id in w.store.rows && w.store.rows[id].reactions == R.Fold(ops)
    ensures id in Next(w, t).store.rows
    ensures Next(w, t).store.rows[id].reactions ==
            R.Fold(ops + if t.step.ReactStep? && t.step.id == id && w.clock <= t.now &&
                            MayReact(w.store, w.rooms, id, t.step.op.user) then [t.step.op] else [])
  {
    if t.step.ReactStep? {
      ReactOutcome(w.store, w.rooms, t.step.id, t.step.op);
      assert (ops + [t.step.op])[..|ops|] == ops;
    } else {
      StepOnRow(w, t, id);
    }
    assert ops + [] == ops;
  }

  lemma {:induction false} StoredReactionsAreFolds(dedup: Dedup, steps: seq<Timed>, id: int)
    requires id in Run(dedup, steps).store.rows
    ensures Run(dedup, steps).store.rows[id].reactions == R.Fold(ReactionsOn(dedup, steps, id))
  {
    var before, t := steps[..|steps| - 1], steps[|steps| - 1];
    var w := Run(dedup, before);
    if id in w.store.rows {
      StoredReactionsAreFolds(dedup, before, id);
      StepOnReactions(w, t, id, ReactionsOn(dedup, before, id));
    } else {
      NoReactionsWithoutRow(dedup, before, id);
      assert t.step.SendStep?;
    }
  }

  /** In every serial run a row's reactions are the set of pairs that its accepted calls made, in order. */
  lemma StoredReactionsRefineASet(dedup: Dedup, steps: seq<Timed>, id: int, emoji: string)
    requires id in Run(dedup, steps).store.rows
    ensures var r, ops := Run(dedup, steps).store.rows[id].reactions, ReactionsOn(dedup, steps, id);
            && (emoji in r ==> r[emoji] != [])
            && R.Reflects(R.UsersOf(r, emoji), R.Position(ops, emoji))
  {
    StoredReactionsAreFolds(dedup, steps, id);
    R.FoldReflects(ReactionsOn(dedup, steps, id), emoji);
  }
}
