// The Hub of internal/server/server.go as a value: its three indexes, its clients, its gauges,
// and the effect of each critical section on them.
module HubState {
  // Capacity of a client's send channel.
  const SEND_BUFFER: nat := 256

  /** The frames that matter to delivery; `entry` is the Redis log position a new message came from. */
  datatype Payload = NewMessage(roomID: string, messageID: int, entry: nat) | OtherPayload(text: string)

  datatype BroadcastMessage = BroadcastMessage(roomID: string, data: Payload)

  /** What a send channel carries: broadcasts of the hub, and acks, errors and presence. */
  datatype Frame = RoomFrame(msg: BroadcastMessage) | DirectFrame(text: string)

  datatype Conn = Conn(userID: string, rooms: set<string>, send: seq<Frame>, closed: bool, closing: bool)

  type Index = map<string, set<string>>

  datatype Hub = Hub(
    conns: map<string, Conn>,  // every client made by NewClient, registered or not
    clients: set<string>,
    users: Index,
    rooms: Index,
    connections: int,          // WebsocketConnectionsActive
    subscriptions: int,        // RoomSubscriptionsActive
    closed: bool)

  function EmptyHub(): Hub { Hub(map[], {}, map[], map[], 0, 0, false) }

  predicate IsClosed(c: Conn) { c.closed || c.closing }

  // ---------- Indexes ----------

  predicate In(m: Index, k: string, id: string) { k in m && id in m[k] }

  predicate NoEmpty(m: Index) { forall k | k in m :: m[k] != {} }

  function Added(m: Index, k: string, id: string): Index {
    m[k := (if k in m then m[k] else {}) + {id}]
  }

  /** Take `id` out of `k`, and `k` out of the index once nobody is left. */
  function Removed(m: Index, k: string, id: string): Index {
    if k !in m then m
    else if m[k] - {id} == {} then m - {k}
    else m[k := m[k] - {id}]
  }

  /** Take `id` out of every room of `mine`. */
  function LeftRooms(m: Index, mine: set<string>, id: string): Index {
    map j | j in m && !(j in mine && m[j] - {id} == {}) :: if j in mine then m[j] - {id} else m[j]
  }

  lemma AddedEntries(m: Index, k: string, id: string)
    ensures forall j, x :: In(Added(m, k, id), j, x) <==> In(m, j, x) || (j == k && x == id)
    ensures NoEmpty(m) ==> NoEmpty(Added(m, k, id))
  {
  }

  lemma RemovedEntries(m: Index, k: string, id: string)
    ensures forall j, x :: In(Removed(m, k, id), j, x) <==> In(m, j, x) && !(j == k && x == id)
    ensures NoEmpty(m) ==> NoEmpty(Removed(m, k, id))
  {
    assert forall x | In(m, k, x) :: x in m[k] - {id} || x == id;
  }

  lemma LeftEntries(m: Index, mine: set<string>, id: string)
    ensures forall j, x :: In(LeftRooms(m, mine, id), j, x) <==> In(m, j, x) && !(j in mine && x == id)
    ensures NoEmpty(m) ==> NoEmpty(LeftRooms(m, mine, id))
  {
    assert forall j, x | In(m, j, x) :: x in m[j] - {id} || x == id;
  }

  // ---------- Critical sections ----------

  function NewClient(h: Hub, id: string, userID: string): Hub {
    h.(conns := h.conns[id := Conn(userID, {}, [], false, false)])
  }

  function Register(h: Hub, id: string): Hub
    requires id in h.conns
  {
    h.(clients := h.clients + {id},
       users := Added(h.users, h.conns[id].userID, id),
       connections := h.connections + 1)
  }

  /** Remove a client from all three indexes and mark it closed. */
  function Drop(h: Hub, id: string): Hub
    requires id in h.conns
  {
    var c := h.conns[id];
    h.(conns := h.conns[id := c.(closed := true)],
       clients := h.clients - {id},
       users := Removed(h.users, c.userID, id),
       rooms := LeftRooms(h.rooms, c.rooms, id))
  }

  function SubsRemoved(h: Hub, id: string): nat
    requires id in h.conns
  {
    |set r | r in h.conns[id].rooms && r in h.rooms|
  }

  function Cleanup(h: Hub, id: string): Hub
    requires id in h.conns
  {
    var registered := id in h.clients;
    var h' := if registered then Drop(h, id) else h;
    if h.conns[id].closed then h'
    else
      h'.(connections := h.connections - 1,
          subscriptions := h.subscriptions - (if registered then SubsRemoved(h, id) else 0))
  }

  function Evict(h: Hub, id: string): Hub
    requires id in h.conns
  {
    if id !in h.clients then h
    else
      Drop(h, id).(connections := h.connections - 1, subscriptions := h.subscriptions - SubsRemoved(h, id))
  }

  function Snapshot(h: Hub, roomID: string): set<string> {
    if roomID in h.rooms then h.rooms[roomID] else {}
  }

  datatype Offer = Skipped | Sent | Full

  function OfferOf(c: Conn): Offer {
    if IsClosed(c) then Skipped else if |c.send| < SEND_BUFFER then Sent else Full
  }

  function Enqueue(h: Hub, id: string, f: Frame): Hub
    requires id in h.conns
  {
    h.(conns := h.conns[id := h.conns[id].(send := h.conns[id].send + [f])])
  }

  function Dequeue(h: Hub, id: string): Hub
    requires id in h.conns && h.conns[id].send != []
  {
    h.(conns := h.conns[id := h.conns[id].(send := h.conns[id].send[1..])])
  }

  function DrainAndClose(h: Hub, id: string): Hub
    requires id in h.conns
  {
    h.(conns := h.conns[id := h.conns[id].(closing := true)])
  }

  function Subscribe(h: Hub, id: string, roomID: string): Hub
    requires id in h.conns
  {
    var c := h.conns[id];
    if IsClosed(c) then h
    else
      h.(conns := h.conns[id := c.(rooms := c.rooms + {roomID})],
         rooms := Added(h.rooms, roomID, id),
         subscriptions := h.subscriptions + (if In(h.rooms, roomID, id) then 0 else 1))
  }

  function Unsubscribe(h: Hub, id: string, roomID: string): Hub
    requires id in h.conns
  {
    var c := h.conns[id];
    h.(conns := h.conns[id := c.(rooms := c.rooms - {roomID})],
       rooms := Removed(h.rooms, roomID, id),
       subscriptions := h.subscriptions - (if In(h.rooms, roomID, id) then 1 else 0))
  }

  function CloseAll(h: Hub): Hub {
    if h.closed then h
    else
      h.(closed := true, conns := WithClosed(h.conns, h.clients))
  }

  function WithClosed(conns: map<string, Conn>, ids: set<string>): map<string, Conn> {
    map id | id in conns :: if id in ids then conns[id].(closed := true) else conns[id]
  }

  // A whole broadcast without interruption, in the order `ids`.

  function Serve(h: Hub, id: string, f: Frame): Hub {
    if id !in h.clients || id !in h.conns then h
    else
      match OfferOf(h.conns[id])
      case Skipped => h
      case Sent => Enqueue(h, id, f)
      case Full => Evict(h, id)
  }

  function ServeAll(h: Hub, ids: seq<string>, f: Frame): Hub {
    if ids == [] then h else Serve(ServeAll(h, ids[..|ids| - 1], f), ids[|ids| - 1], f)
  }

  // ---------- Agreement of the indexes ----------

  /** Still entitled to room entries: not closed, or closed by CloseAll and not yet cleaned up. */
  predicate Live(h: Hub, id: string)
    requires id in h.conns
  {
    !h.conns[id].closed || id in h.clients
  }

  ghost predicate UsersAgree(h: Hub) {
    && NoEmpty(h.users)
    && (forall id | id in h.clients :: id in h.conns)
    && (forall u, id :: In(h.users, u, id) <==> id in h.clients && h.conns[id].userID == u)
  }

  ghost predicate RoomsAgree(h: Hub) {
    && NoEmpty(h.rooms)
    && (forall r, id | In(h.rooms, r, id) :: id in h.conns)
    && (forall r, id | id in h.conns ::
          In(h.rooms, r, id) <==> Live(h, id) && r in h.conns[id].rooms)
  }

  ghost predicate ClosedAreGone(h: Hub) {
    !h.closed ==> forall id | id in h.clients :: id in h.conns && !h.conns[id].closed
  }

  predicate QueuesBounded(h: Hub) {
    forall id | id in h.conns :: |h.conns[id].send| <= SEND_BUFFER
  }

  /** `users` groups `clients`; `rooms` inverts the clients' own room sets; closed clients are in no index. */
  ghost predicate Agree(h: Hub) {
    UsersAgree(h) && RoomsAgree(h) && ClosedAreGone(h) && QueuesBounded(h)
  }

  lemma NewClientAgrees(h: Hub, id: string, userID: string)
    requires Agree(h) && id !in h.conns
    ensures Agree(NewClient(h, id, userID))
  {
  }

  lemma RegisterAgrees(h: Hub, id: string)
    requires Agree(h) && id in h.conns && !h.conns[id].closed
    ensures Agree(Register(h, id))
  {
    AddedEntries(h.users, h.conns[id].userID, id);
  }

  lemma DropAgrees(h: Hub, id: string)
    requires Agree(h) && id in h.clients
    ensures Agree(Drop(h, id))
  {
    RemovedEntries(h.users, h.conns[id].userID, id);
    LeftEntries(h.rooms, h.conns[id].rooms, id);
  }

  lemma CleanupAgrees(h: Hub, id: string)
    requires Agree(h) && id in h.conns
    ensures Agree(Cleanup(h, id)) && Agree(Evict(h, id))
  {
    if id in h.clients { DropAgrees(h, id); }
  }

  lemma SubscribeAgrees(h: Hub, id: string, roomID: string)
    requires Agree(h) && id in h.conns
    ensures Agree(Subscribe(h, id, roomID))
  {
    AddedEntries(h.rooms, roomID, id);
  }

  lemma UnsubscribeAgrees(h: Hub, id: string, roomID: string)
    requires Agree(h) && id in h.conns
    ensures Agree(Unsubscribe(h, id, roomID))
  {
    RemovedEntries(h.rooms, roomID, id);
  }

  lemma CloseAllAgrees(h: Hub)
    requires Agree(h)
    ensures Agree(CloseAll(h))
  {
  }

  /** Only the send queue and the closing flag of one client differ. */
  predicate SameButQueue(h: Hub, h': Hub, id: string)
    requires id in h.conns
  {
    id in h'.conns &&
    h' == h.(conns := h.conns[id := h.conns[id].(send := h'.conns[id].send, closing := h'.conns[id].closing)])
  }

  lemma QueueStepAgrees(h: Hub, h': Hub, id: string)
    requires Agree(h) && id in h.conns && SameButQueue(h, h', id)
    requires |h'.conns[id].send| <= SEND_BUFFER
    ensures Agree(h')
  {
    assert h'.conns.Keys == h.conns.Keys;
    forall x | x in h.conns ensures Live(h', x) <==> Live(h, x) {}
  }

  // ---------- Gauges ----------

  /** Room subscriptions one by one: as many as the room sets have elements in all. */
  ghost function Pairs(m: Index): set<(string, string)> {
    set k, id | k in m && id in m[k] :: (k, id)
  }

  lemma PairsHas(m: Index)
    ensures forall p :: p in Pairs(m) <==> In(m, p.0, p.1)
  {
  }

  lemma PairsAdded(m: Index, k: string, id: string)
    ensures |Pairs(Added(m, k, id))| == |Pairs(m)| + if In(m, k, id) then 0 else 1
  {
    AddedEntries(m, k, id);
    PairsHas(m);
    PairsHas(Added(m, k, id));
    assert Pairs(Added(m, k, id)) == Pairs(m) + {(k, id)};
  }

  lemma PairsRemoved(m: Index, k: string, id: string)
    ensures |Pairs(Removed(m, k, id))| == |Pairs(m)| - if In(m, k, id) then 1 else 0
  {
    RemovedEntries(m, k, id);
    PairsHas(m);
    PairsHas(Removed(m, k, id));
    assert Pairs(Removed(m, k, id)) == Pairs(m) - {(k, id)};
  }

  lemma {:induction false} ImageSize(mine: set<string>, id: string)
    ensures |set k | k in mine :: (k, id)| == |mine|
    decreases |mine|
  {
    if k :| k in mine {
      ImageSize(mine - {k}, id);
      assert (set j | j in mine :: (j, id)) == (set j | j in mine - {k} :: (j, id)) + {(k, id)};
    } else {
      assert (set j | j in mine :: (j, id)) == {};
    }
  }

  lemma PairsLeft(m: Index, mine: set<string>, id: string)
    requires forall k | k in mine :: In(m, k, id)
    ensures |Pairs(LeftRooms(m, mine, id))| == |Pairs(m)| - |mine|
  {
    LeftEntries(m, mine, id);
    var gone := set k | k in mine :: (k, id);
    ImageSize(mine, id);
    PairsHas(m);
    PairsHas(LeftRooms(m, mine, id));
    assert gone <= Pairs(m);
    assert Pairs(LeftRooms(m, mine, id)) == Pairs(m) - gone;
  }

  /** Dropping a live client takes one count off the gauge for each of its rooms. */
  lemma DropSubscriptions(h: Hub, id: string)
    requires Agree(h) && id in h.clients
    ensures |Pairs(Drop(h, id).rooms)| == |Pairs(h.rooms)| - SubsRemoved(h, id)
  {
    var mine := h.conns[id].rooms;
    forall r | r in mine ensures In(h.rooms, r, id) {}
    PairsLeft(h.rooms, mine, id);
    assert (set r | r in mine && r in h.rooms) == mine;
  }

  // ---------- Isolation ----------

  /** Everything the hub records about `id`. */
  ghost predicate SameEntries(h: Hub, h': Hub, id: string) {
    && (id in h.conns <==> id in h'.conns)
    && (id in h.conns ==> h'.conns[id] == h.conns[id])
    && (id in h.clients <==> id in h'.clients)
    && (forall k :: In(h.users, k, id) <==> In(h'.users, k, id))
    && (forall k :: In(h.rooms, k, id) <==> In(h'.rooms, k, id))
  }

  /** No critical section of one client touches what is recorded about another. */
  lemma OthersUntouched(h: Hub, id: string, roomID: string, other: string)
    requires id in h.conns && other != id
    ensures SameEntries(h, Register(h, id), other)
    ensures SameEntries(h, Cleanup(h, id), other) && SameEntries(h, Evict(h, id), other)
    ensures SameEntries(h, Subscribe(h, id, roomID), other)
    ensures SameEntries(h, Unsubscribe(h, id, roomID), other)
  {
    AddedEntries(h.users, h.conns[id].userID, id);
    RemovedEntries(h.users, h.conns[id].userID, id);
    LeftEntries(h.rooms, h.conns[id].rooms, id);
    AddedEntries(h.rooms, roomID, id);
    RemovedEntries(h.rooms, roomID, id);
  }

  lemma OthersUntouchedByQueue(h: Hub, h': Hub, id: string, other: string)
    requires id in h.conns && other != id && SameButQueue(h, h', id)
    ensures SameEntries(h, h', other)
  {
  }
}
