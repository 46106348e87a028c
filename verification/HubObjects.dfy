// The Hub and Client objects of internal/server/server.go, changed in place. Each method that
// holds the hub's lock is one critical section, proved against its function in HubState.
module HubObjects {
  import opened HubState

  class Client {
    const id: string
    const userID: string
    var rooms: set<string>
    var send: seq<Frame>
    var closed: bool
    var closedInProgress: bool

    constructor (id: string, userID: string)
      ensures this.id == id && Abs() == Conn(userID, {}, [], false, false)
    {
      this.id, this.userID := id, userID;
      rooms, send, closed, closedInProgress := {}, [], false, false;
    }

    function Abs(): Conn
      reads this
    {
      Conn(userID, rooms, send, closed, closedInProgress)
    }

    predicate IsClosed()
      reads this
      ensures IsClosed() <==> HubState.IsClosed(Abs())
    {
      closed || closedInProgress
    }

    /** A send that never blocks. */
    method TrySend(f: Frame) returns (sent: bool)
      modifies this`send
      ensures sent <==> |old(send)| < SEND_BUFFER
      ensures send == if sent then old(send) + [f] else old(send)
    {
      sent := |send| < SEND_BUFFER;
      if sent { send := send + [f]; }
    }
  }

  class HubServer {
    var clients: map<string, Client>
    var users: map<string, set<string>>
    var rooms: map<string, set<string>>
    var connectionsActive: int
    var subscriptionsActive: int
    var closed: bool
    ghost var known: set<Client>        // every client made for this hub
    ghost var conns: map<string, Conn>  // what each holds, by id

    ghost predicate Valid()
      reads this, known
    {
      && (forall c | c in known :: c.id in conns && conns[c.id] == c.Abs())
      && (forall c, d | c in known && d in known && c.id == d.id :: c == d)
      && (forall id | id in clients :: clients[id] in known && clients[id].id == id)
    }

    ghost function Abs(): Hub
      reads this
    {
      Hub(conns, clients.Keys, users, rooms, connectionsActive, subscriptionsActive, closed)
    }

    constructor ()
      ensures Valid() && Abs() == EmptyHub() && known == {}
    {
      clients, users, rooms, known, conns := map[], map[], map[], {}, map[];
      connectionsActive, subscriptionsActive, closed := 0, 0, false;
    }

    method NewClient(id: string, userID: string) returns (c: Client)
      requires Valid() && id !in conns
      modifies this`known, this`conns
      ensures Valid() && c in known && fresh(c)
      ensures Abs() == HubState.NewClient(old(Abs()), id, userID)
    {
      c := new Client(id, userID);
      known := known + {c};
      conns := conns[id := c.Abs()];
    }

    method Register(c: Client)
      requires Valid() && c in known
      modifies this`clients, this`users, this`connectionsActive
      ensures Valid()
      ensures Abs() == HubState.Register(old(Abs()), c.id)
    {
      var entries := if c.userID in users then users[c.userID] else {};
      assert clients[c.id := c].Keys == clients.Keys + {c.id};
      clients, users, connectionsActive :=
        clients[c.id := c], users[c.userID := entries + {c.id}], connectionsActive + 1;
    }

    /** What cleanup and eviction share: take a registered client out of the three indexes. */
    method DropClient(c: Client) returns (subsRemoved: nat)
      requires Valid() && c in known
      modifies this`conns, this`clients, this`users, this`rooms, c`closed
      ensures Valid()
      ensures Abs() == Drop(old(Abs()), c.id)
      ensures subsRemoved == SubsRemoved(old(Abs()), c.id)
    {
      var users' := WithoutEntry(users, c.userID, c.id);
      var rooms', removed := WithoutRooms(rooms, c.rooms, c.id);
      subsRemoved := removed;
      assert (clients - {c.id}).Keys == clients.Keys - {c.id};
      c.closed := true;
      conns, clients, users, rooms := conns[c.id := c.Abs()], clients - {c.id}, users', rooms';
    }

    method CleanupClient(c: Client)
      requires Valid() && c in known
      modifies this`conns, this`clients, this`users, this`rooms, this`connectionsActive, this`subscriptionsActive, c`closed
      ensures Valid()
      ensures Abs() == Cleanup(old(Abs()), c.id)
    {
      var subsRemoved := 0;
      var alreadyClosed := c.closed;
      if c.id in clients {
        subsRemoved := DropClient(c);
      }
      if !alreadyClosed {
        connectionsActive, subscriptionsActive := connectionsActive - 1, subscriptionsActive - subsRemoved;
      }
    }

    /** First part of broadcastMessage: the ids in the room, in the order the map yields them. */
    method SnapshotRoom(roomID: string) returns (ids: seq<string>)
      ensures (set id | id in ids) == Snapshot(Abs(), roomID)
      ensures forall i, j | 0 <= i < j < |ids| :: ids[i] != ids[j]
    {
      var todo := if roomID in rooms then rooms[roomID] else {};
      ghost var all := todo;
      ids := [];
      while todo != {}
        invariant todo <= all
        invariant forall id :: id in ids <==> id in all - todo
        invariant forall i, j | 0 <= i < j < |ids| :: ids[i] != ids[j]
        decreases todo
      {
        var id :| id in todo;
        assert forall i | 0 <= i < |ids| :: ids[i] in ids;
        ids := ids + [id];
        todo := todo - {id};
      }
    }

    /** Check and send to a looked-up client. */
    method OfferTo(c: Client, f: Frame) returns (offer: Offer)
      requires Valid() && c in known
      modifies this`conns, c`send
      ensures Valid()
      ensures offer == OfferOf(old(Abs()).conns[c.id])
      ensures Abs() == if offer == Sent then Enqueue(old(Abs()), c.id, f) else old(Abs())
    {
      if c.IsClosed() {
        offer := Skipped;
      } else {
        var sent := c.TrySend(f);
        offer := if sent then Sent else Full;
      }
      conns := conns[c.id := c.Abs()];
    }

    method EvictClient(c: Client)
      requires Valid() && c in known
      modifies this`conns, this`clients, this`users, this`rooms, this`connectionsActive, this`subscriptionsActive, c`closed
      ensures Valid()
      ensures Abs() == Evict(old(Abs()), c.id)
    {
      if c.id in clients && clients[c.id] == c {
        var subsRemoved := DropClient(c);
        connectionsActive, subscriptionsActive := connectionsActive - 1, subscriptionsActive - subsRemoved;
      }
    }

    /** The body of the loop of broadcastMessage, with nothing in between. */
    method ServeClient(id: string, f: Frame)
      requires Valid()
      modifies this`conns, this`clients, this`users, this`rooms, this`connectionsActive, this`subscriptionsActive, known
      ensures Valid() && known == old(known)
      ensures Abs() == Serve(old(Abs()), id, f)
    {
      if id in clients {
        var c := clients[id];
        var offer := OfferTo(c, f);
        if offer == Full { EvictClient(c); }
      }
    }

    /** A whole broadcast with nothing in between: `ids` is the order in which it served its snapshot. */
    method BroadcastMessage(msg: BroadcastMessage) returns (ids: seq<string>)
      requires Valid()
      modifies this`conns, this`clients, this`users, this`rooms, this`connectionsActive, this`subscriptionsActive, known
      ensures Valid() && known == old(known)
      ensures (set id | id in ids) == Snapshot(old(Abs()), msg.roomID)
      ensures forall i, j | 0 <= i < j < |ids| :: ids[i] != ids[j]
      ensures Abs() == ServeAll(old(Abs()), ids, RoomFrame(msg))
    {
      ids := SnapshotRoom(msg.roomID);
      var i := 0;
      while i < |ids|
        invariant 0 <= i <= |ids|
        invariant Valid() && known == old(known)
        invariant Abs() == ServeAll(old(Abs()), ids[..i], RoomFrame(msg))
      {
        assert ids[..i + 1][..|ids[..i + 1]| - 1] == ids[..i];
        ServeClient(ids[i], RoomFrame(msg));
        i := i + 1;
      }
      assert ids[..i] == ids;
    }

    method SubscribeToRoom(c: Client, roomID: string)
      requires Valid() && c in known
      modifies this`conns, this`rooms, this`subscriptionsActive, c`rooms
      ensures Valid()
      ensures Abs() == Subscribe(old(Abs()), c.id, roomID)
    {
      if c.IsClosed() { return; }
      var members := if roomID in rooms then rooms[roomID] else {};
      c.rooms := c.rooms + {roomID};
      if c.id !in members { subscriptionsActive := subscriptionsActive + 1; }
      conns, rooms := conns[c.id := c.Abs()], rooms[roomID := members + {c.id}];
    }

    method UnsubscribeFromRoom(c: Client, roomID: string)
      requires Valid() && c in known
      modifies this`conns, this`rooms, this`subscriptionsActive, c`rooms
      ensures Valid()
      ensures Abs() == Unsubscribe(old(Abs()), c.id, roomID)
    {
      if roomID in rooms {
        if c.id in rooms[roomID] { subscriptionsActive := subscriptionsActive - 1; }
        rooms := WithoutEntry(rooms, roomID, c.id);
      }
      c.rooms := c.rooms - {roomID};
      conns := conns[c.id := c.Abs()];
    }

    method IsSubscribed(c: Client, roomID: string) returns (yes: bool)
      ensures yes <==> In(Abs().rooms, roomID, c.id)
    {
      yes := roomID in rooms && c.id in rooms[roomID];
    }

    method DrainAndClose(c: Client)
      requires Valid() && c in known
      modifies this`conns, c`closedInProgress
      ensures Valid()
      ensures Abs() == HubState.DrainAndClose(old(Abs()), c.id)
    {
      c.closedInProgress := true;
      conns := conns[c.id := c.Abs()];
    }

    /** One turn of WritePump. */
    method WriteOne(c: Client) returns (f: Frame)
      requires Valid() && c in known && c.send != []
      modifies this`conns, c`send
      ensures Valid()
      ensures f == old(c.send)[0]
      ensures Abs() == Dequeue(old(Abs()), c.id)
    {
      f := c.send[0];
      c.send := c.send[1..];
      conns := conns[c.id := c.Abs()];
    }

    method SwapClosed(c: Client) returns (was: bool)
      requires Valid() && c in known
      modifies this`conns, c`closed
      ensures Valid()
      ensures was == old(c.closed)
      ensures conns == old(conns)[c.id := old(conns)[c.id].(closed := true)]
    {
      was := c.closed;
      c.closed := true;
      conns := conns[c.id := c.Abs()];
    }

    method CloseAll()
      requires Valid()
      modifies this`conns, this`closed, known
      ensures Valid()
      ensures Abs() == HubState.CloseAll(old(Abs()))
    {
      if closed { return; }
      closed := true;
      CloseClients();
    }

    method CloseClients()
      requires Valid()
      modifies this`conns, known
      ensures Valid()
      ensures conns == WithClosed(old(conns), clients.Keys)
    {
      var all := clients;
      var todo := all.Keys;
      ghost var done, was := {}, conns;
      while todo != {}
        invariant todo + done == all.Keys
        invariant Valid()
        invariant conns == WithClosed(was, done)
        decreases todo
      {
        var id :| id in todo;
        var _ := SwapClosed(all[id]);
        CloseOneMore(was, done, id);
        todo, done := todo - {id}, done + {id};
      }
    }
  }

  lemma CloseOneMore(conns: map<string, Conn>, ids: set<string>, id: string)
    requires id in conns
    ensures var was := WithClosed(conns, ids);
            WithClosed(conns, ids + {id}) == was[id := was[id].(closed := true)]
  {
  }

  /** Deletes `id` under `k`, and the key with it once nobody is left. */
  method WithoutEntry(m: Index, k: string, id: string) returns (m': Index)
    ensures m' == Removed(m, k, id)
  {
    m' := m;
    if k in m' {
      m' := m'[k := m'[k] - {id}];
      if m'[k] == {} { m' := m' - {k}; }
    }
  }

  /** The loop of cleanup and eviction over the client's own rooms. */
  method WithoutRooms(m: Index, mine: set<string>, id: string) returns (m': Index, subsRemoved: nat)
    ensures m' == LeftRooms(m, mine, id)
    ensures subsRemoved == |set r | r in mine && r in m|
  {
    var todo := mine;
    ghost var done := {};
    m', subsRemoved := m, 0;
    while todo != {}
      invariant todo + done == mine && todo !! done
      invariant m' == LeftRooms(m, done, id)
      invariant subsRemoved == |set r | r in done && r in m|
      decreases todo
    {
      var roomID :| roomID in todo;
      LeaveOneMore(m, done, roomID, id);
      CountOneMore(m, done, roomID);
      if roomID in m' {
        m' := WithoutEntry(m', roomID, id);
        subsRemoved := subsRemoved + 1;
      }
      todo, done := todo - {roomID}, done + {roomID};
    }
    assert done == mine;
  }

  lemma LeaveOneMore(m: Index, mine: set<string>, roomID: string, id: string)
    requires roomID !in mine
    ensures roomID in LeftRooms(m, mine, id) <==> roomID in m
    ensures LeftRooms(m, mine + {roomID}, id) == Removed(LeftRooms(m, mine, id), roomID, id)
  {
  }

  lemma CountOneMore(m: Index, mine: set<string>, roomID: string)
    requires roomID !in mine
    ensures |set r | r in mine + {roomID} && r in m|
         == |set r | r in mine && r in m| + (if roomID in m then 1 else 0)
  {
    var counted := set r | r in mine && r in m;
    assert (set r | r in mine + {roomID} && r in m) == if roomID in m then counted + {roomID} else counted;
  }
}
