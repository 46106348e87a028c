// Every interleaving of the hub's critical sections: the Run goroutine works through one
// broadcast at a time, client by client, while pumps and handlers of any client step in between.
module HubRuns {
  import opened Prelude
  import opened HubState

  /** A broadcast as it was processed, with the clients its snapshot listed. */
  datatype Logged = Logged(msg: BroadcastMessage, snapshot: set<string>)

  /** Where the Run goroutine is with the client it is serving. */
  datatype Focus = NoFocus | LookedUp(id: string) | FoundFull(id: string)

  /** A frame put on a send channel, and the log position it came from (-1 for a direct frame). */
  datatype Queued = Queued(frame: Frame, pos: int)

  datatype World = World(
    hub: Hub,
    log: seq<Logged>,                   // broadcasts processed, in hub order
    todo: set<string>,                  // clients of the current snapshot not reached yet
    focus: Focus,
    registeredAt: map<string, nat>,     // log length when the client's register was processed
    enqueued: map<string, seq<Queued>>, // everything ever put on a client's channel
    written: map<string, seq<Frame>>,   // everything its WritePump took off
    early: nat,                         // cleanups that ran before their client's register
    late: nat,                          // cleanups of clients that CloseAll had closed
    lateSubs: nat)                      // the subscriptions those cleanups took away

  datatype Step =
    | New(id: string, userID: string)
    | RunRegister(id: string)
    | RunBegin(msg: BroadcastMessage)
    | RunLookup(id: string)
    | RunOffer
    | RunEvict
    | Clean(id: string)
    | Join(id: string, roomID: string)
    | Leave(id: string, roomID: string)
    | SendDirect(id: string, text: string)
    | Write(id: string)
    | Drain(id: string)
    | Shutdown

  function Start(): World { World(EmptyHub(), [], {}, NoFocus, map[], map[], map[], 0, 0, 0) }

  predicate Idle(w: World) { w.todo == {} && w.focus == NoFocus }

  predicate Known(w: World, id: string) { id in w.hub.conns && id in w.enqueued && id in w.written }

  predicate Enabled(w: World, s: Step) {
    match s
    case New(id, _) => id !in w.hub.conns
    case RunRegister(id) => Known(w, id) && id !in w.registeredAt && Idle(w)
    case RunBegin(_) => Idle(w)
    case RunLookup(id) => id in w.todo && w.focus == NoFocus
    case RunOffer => w.focus.LookedUp? && Known(w, w.focus.id) && w.log != []
    case RunEvict => w.focus.FoundFull? && Known(w, w.focus.id)
    case Write(id) => Known(w, id) && w.hub.conns[id].send != []
    case Clean(id) => Known(w, id)
    case Join(id, _) => Known(w, id)
    case Leave(id, _) => Known(w, id)
    case SendDirect(id, _) => Known(w, id)
    case Drain(id) => Known(w, id)
    case Shutdown => true
  }

  function Put(w: World, id: string, q: Queued): World
    requires Known(w, id)
  {
    w.(hub := Enqueue(w.hub, id, q.frame), enqueued := w.enqueued[id := w.enqueued[id] + [q]])
  }

  /** A client closed by CloseAll is still registered; its cleanup leaves the gauges alone. */
  predicate CleansClosed(w: World, id: string)
    requires id in w.hub.conns
  {
    id in w.hub.clients && w.hub.conns[id].closed
  }

  function Next(w: World, s: Step): World {
    if !Enabled(w, s) then w
    else
      match s
      case New(id, userID) =>
        w.(hub := NewClient(w.hub, id, userID), enqueued := w.enqueued[id := []], written := w.written[id := []])
      case RunRegister(id) =>
        w.(hub := Register(w.hub, id), registeredAt := w.registeredAt[id := |w.log|])
      case RunBegin(msg) =>
        var snapshot := Snapshot(w.hub, msg.roomID);
        w.(log := w.log + [Logged(msg, snapshot)], todo := snapshot)
      case RunLookup(id) =>
        w.(todo := w.todo - {id}, focus := if id in w.hub.clients then LookedUp(id) else NoFocus)
      case RunOffer =>
        var id := w.focus.id;
        (match OfferOf(w.hub.conns[id])
         case Skipped => w.(focus := NoFocus)
         case Sent => Put(w, id, Queued(RoomFrame(w.log[|w.log| - 1].msg), |w.log| - 1)).(focus := NoFocus)
         case Full => w.(focus := FoundFull(id)))
      case RunEvict =>
        w.(hub := Evict(w.hub, w.focus.id), focus := NoFocus)
      case Clean(id) =>
        w.(hub := Cleanup(w.hub, id),
           early := if id !in w.hub.clients && !w.hub.conns[id].closed then w.early + 1 else w.early,
           late := if CleansClosed(w, id) then w.late + 1 else w.late,
           lateSubs := if CleansClosed(w, id) then w.lateSubs + SubsRemoved(w.hub, id) else w.lateSubs)
      case Join(id, roomID) => w.(hub := Subscribe(w.hub, id, roomID))
      case Leave(id, roomID) => w.(hub := Unsubscribe(w.hub, id, roomID))
      case SendDirect(id, text) =>
        if !w.hub.conns[id].closing && |w.hub.conns[id].send| < SEND_BUFFER
        then Put(w, id, Queued(DirectFrame(text), -1)) else w
      case Write(id) =>
        w.(hub := Dequeue(w.hub, id), written := w.written[id := w.written[id] + [w.hub.conns[id].send[0]]])
      case Drain(id) => w.(hub := DrainAndClose(w.hub, id))
      case Shutdown => w.(hub := CloseAll(w.hub))
  }

  function Run(steps: seq<Step>): World {
    if steps == [] then Start() else Next(Run(steps[..|steps| - 1]), steps[|steps| - 1])
  }

  /** The client a step is about, if it is about one. */
  function Target(w: World, s: Step): Option<string> {
    match s
    case RunBegin(_) => None
    case RunLookup(_) => None
    case Shutdown => None
    case RunOffer => if w.focus.NoFocus? then None else Some(w.focus.id)
    case RunEvict => if w.focus.NoFocus? then None else Some(w.focus.id)
    case New(id, _) => Some(id)
    case RunRegister(id) => Some(id)
    case Clean(id) => Some(id)
    case Join(id, _) => Some(id)
    case Leave(id, _) => Some(id)
    case SendDirect(id, _) => Some(id)
    case Write(id) => Some(id)
    case Drain(id) => Some(id)
  }

  // ---------- Indexes and gauges in every reachable state ----------

  /** A client registers once; until then it is not closed, and once it left the index it is. */
  ghost predicate Lifecycle(w: World) {
    && w.enqueued.Keys == w.hub.conns.Keys == w.written.Keys
    && w.registeredAt.Keys <= w.hub.conns.Keys
    && w.hub.clients <= w.registeredAt.Keys
    && (forall id | id in w.hub.conns && w.hub.conns[id].closed :: id in w.registeredAt)
    && (forall id | id in w.registeredAt && id !in w.hub.clients :: w.hub.conns[id].closed)
  }

  ghost predicate GaugesExact(w: World) {
    && w.hub.connections == |w.hub.clients| - w.early + w.late
    && w.hub.subscriptions == |Pairs(w.hub.rooms)| + w.lateSubs
    && (!w.hub.closed ==> w.late == 0 && w.lateSubs == 0)
  }

  ghost predicate Consistent(w: World) {
    Agree(w.hub) && Lifecycle(w) && GaugesExact(w)
  }

  predicate TouchesQueueOnly(s: Step) {
    s.RunOffer? || s.SendDirect? || s.Write? || s.Drain? || s.RunBegin? || s.RunLookup?
  }

  /** What the queue steps share: at most one send queue or closing flag differs. */
  lemma QueueStepIsLocal(w: World, s: Step)
    requires Enabled(w, s) && TouchesQueueOnly(s) && QueuesBounded(w.hub)
    ensures var w' := Next(w, s);
            && w'.registeredAt == w.registeredAt
            && w'.early == w.early && w'.late == w.late && w'.lateSubs == w.lateSubs
            && w'.enqueued.Keys == w.enqueued.Keys && w'.written.Keys == w.written.Keys
            && (w'.hub == w.hub ||
                  (Target(w, s).Some? && var id := Target(w, s).value;
                   id in w.hub.conns && SameButQueue(w.hub, w'.hub, id) && |w'.hub.conns[id].send| <= SEND_BUFFER))
  {
  }

  lemma LifecycleFrame(w: World, w': World)
    requires Lifecycle(w)
    requires w'.hub.conns.Keys == w.hub.conns.Keys && w'.hub.clients == w.hub.clients
    requires forall id | id in w.hub.conns :: w'.hub.conns[id].closed == w.hub.conns[id].closed
    requires w'.registeredAt == w.registeredAt
    requires w'.enqueued.Keys == w.enqueued.Keys && w'.written.Keys == w.written.Keys
    ensures Lifecycle(w')
  {
  }

  lemma QueueStepConsistent(w: World, s: Step)
    requires Consistent(w) && Enabled(w, s) && TouchesQueueOnly(s)
    ensures Consistent(Next(w, s))
  {
    QueueStepIsLocal(w, s);
    var w' := Next(w, s);
    if w'.hub != w.hub {
      QueueStepAgrees(w.hub, w'.hub, Target(w, s).value);
    }
    LifecycleFrame(w, w');
  }

  lemma NewConsistent(w: World, s: Step)
    requires Consistent(w) && Enabled(w, s) && (s.New? || s.Shutdown?)
    ensures Consistent(Next(w, s))
  {
    if s.New? {
      NewClientAgrees(w.hub, s.id, s.userID);
    } else {
      CloseAllAgrees(w.hub);
    }
  }

  lemma RegisterConsistent(w: World, s: Step)
    requires Consistent(w) && Enabled(w, s) && s.RunRegister?
    ensures Consistent(Next(w, s))
  {
    RegisterAgrees(w.hub, s.id);
  }

  lemma DropKeepsLifecycle(w: World, id: string)
    requires Lifecycle(w) && id in w.hub.conns && id in w.hub.clients
    ensures Lifecycle(w.(hub := Drop(w.hub, id)))
  {
    assert Drop(w.hub, id).conns.Keys == w.hub.conns.Keys;
  }

  lemma EvictConsistent(w: World, s: Step)
    requires Consistent(w) && Enabled(w, s) && s.RunEvict?
    ensures Consistent(Next(w, s))
  {
    var id := w.focus.id;
    CleanupAgrees(w.hub, id);
    if id in w.hub.clients {
      DropSubscriptions(w.hub, id);
      DropKeepsLifecycle(w, id);
      assert Lifecycle(Next(w, s));
    }
  }

  lemma CleanConsistent(w: World, s: Step)
    requires Consistent(w) && Enabled(w, s) && s.Clean?
    ensures Consistent(Next(w, s))
  {
    CleanupAgrees(w.hub, s.id);
    if s.id in w.hub.clients {
      DropSubscriptions(w.hub, s.id);
      DropKeepsLifecycle(w, s.id);
      assert Lifecycle(Next(w, s));
    }
  }

  lemma JoinGauges(w: World, s: Step)
    requires GaugesExact(w) && Enabled(w, s) && s.Join?
    ensures GaugesExact(Next(w, s))
  {
    if !IsClosed(w.hub.conns[s.id]) {
      PairsAdded(w.hub.rooms, s.roomID, s.id);
    }
  }

  lemma JoinKeepsClosed(w: World, s: Step)
    requires Enabled(w, s) && s.Join?
    ensures var w' := Next(w, s);
            && w'.hub.conns.Keys == w.hub.conns.Keys && w'.hub.clients == w.hub.clients
            && (forall id | id in w.hub.conns :: w'.hub.conns[id].closed == w.hub.conns[id].closed)
            && w'.registeredAt == w.registeredAt && w'.enqueued == w.enqueued && w'.written == w.written
  {
  }

  lemma JoinConsistent(w: World, s: Step)
    requires Consistent(w) && Enabled(w, s) && s.Join?
    ensures Consistent(Next(w, s))
  {
    SubscribeAgrees(w.hub, s.id, s.roomID);
    JoinGauges(w, s);
    JoinKeepsClosed(w, s);
    LifecycleFrame(w, Next(w, s));
  }

  lemma LeaveConsistent(w: World, s: Step)
    requires Consistent(w) && Enabled(w, s) && s.Leave?
    ensures Consistent(Next(w, s))
  {
    UnsubscribeAgrees(w.hub, s.id, s.roomID);
    LifecycleFrame(w, Next(w, s));
    PairsRemoved(w.hub.rooms, s.roomID, s.id);
  }

  lemma NextConsistent(w: World, s: Step)
    requires Consistent(w)
    ensures Consistent(Next(w, s))
  {
    if !Enabled(w, s) {
    } else if TouchesQueueOnly(s) { QueueStepConsistent(w, s);
    } else if s.Clean? { CleanConsistent(w, s);
    } else if s.RunEvict? { EvictConsistent(w, s);
    } else if s.Join? { JoinConsistent(w, s);
    } else if s.Leave? { LeaveConsistent(w, s);
    } else if s.RunRegister? { RegisterConsistent(w, s);
    } else { NewConsistent(w, s); }
  }

  lemma {:induction false} RunConsistent(steps: seq<Step>)
    ensures Consistent(Run(steps))
  {
    if steps == [] {
      assert Pairs(Start().hub.rooms) == {};
    } else {
      RunConsistent(steps[..|steps| - 1]);
      NextConsistent(Run(steps[..|steps| - 1]), steps[|steps| - 1]);
    }
  }

  /** In every reachable state the three indexes agree. */
  lemma IndexesAgree(steps: seq<Step>)
    ensures var h := Run(steps).hub;
            && (forall u, id :: In(h.users, u, id) <==> id in h.clients && id in h.conns && h.conns[id].userID == u)
            && NoEmpty(h.users) && NoEmpty(h.rooms)
            && (forall r, id | id in h.conns && !h.conns[id].closed ::
                  In(h.rooms, r, id) <==> r in h.conns[id].rooms)
            && (!h.closed ==> forall id | id in h.conns && h.conns[id].closed ::
                  id !in h.clients && (forall k :: !In(h.users, k, id) && !In(h.rooms, k, id)))
  {
    RunConsistent(steps);
  }

  /** In every reachable state the gauges are the sizes of the indexes, less the cleanups that came
      too early, plus what the cleanups of clients closed by CloseAll did not take off. */
  lemma GaugesConserved(steps: seq<Step>)
    ensures var w := Run(steps);
            && w.hub.subscriptions == |Pairs(w.hub.rooms)| + w.lateSubs
            && w.hub.connections == |w.hub.clients| - w.early + w.late
            && (!w.hub.closed ==> w.late == 0 && w.lateSubs == 0)
  {
    RunConsistent(steps);
  }

  /** Every step but CloseAll leaves all that is recorded about other clients as it was. */
  lemma StepsAreLocal(w: World, s: Step, other: string)
    requires !s.Shutdown? && Target(w, s) != Some(other)
    ensures SameEntries(w.hub, Next(w, s).hub, other)
  {
    var w' := Next(w, s);
    if Enabled(w, s) && w'.hub != w.hub && !s.New? {
      var id := Target(w, s).value;
      if TouchesQueueOnly(s) {
        OthersUntouchedByQueue(w.hub, w'.hub, id, other);
      } else {
        OthersUntouched(w.hub, id, if s.Join? || s.Leave? then s.roomID else "", other);
      }
    }
  }

  // ---------- What the steps do ----------

  predicate ListsSubscribers(w: World, w': World, msg: BroadcastMessage, id: string) {
    && |w'.log| == |w.log| + 1 && w'.log[..|w.log|] == w.log && w'.log[|w.log|].msg == msg
    && w'.todo == w'.log[|w.log|].snapshot
    && (id in w.hub.conns && !w.hub.conns[id].closed ==>
          (id in w'.log[|w.log|].snapshot <==> msg.roomID in w.hub.conns[id].rooms))
    && (!w.hub.closed && id in w'.log[|w.log|].snapshot ==> id in w.hub.conns && !w.hub.conns[id].closed)
  }

  lemma BeginLists(w: World, msg: BroadcastMessage, id: string)
    requires Consistent(w) && Idle(w)
    ensures ListsSubscribers(w, Next(w, RunBegin(msg)), msg, id)
  {
    var w' := Next(w, RunBegin(msg));
    assert id in w'.log[|w.log|].snapshot <==> In(w.hub.rooms, msg.roomID, id);
  }

  /** A broadcast lists exactly the open clients that have its room among their own, and until CloseAll
      nobody else. */
  lemma BroadcastListsSubscribers(steps: seq<Step>, msg: BroadcastMessage, id: string)
    requires Idle(Run(steps))
    ensures ListsSubscribers(Run(steps), Next(Run(steps), RunBegin(msg)), msg, id)
  {
    RunConsistent(steps);
    BeginLists(Run(steps), msg, id);
  }

  /** A registration puts the client into `clients` and under its user, where it stays open. */
  lemma RegistrationTakesEffect(steps: seq<Step>, id: string)
    requires Enabled(Run(steps), RunRegister(id))
    ensures var h, h' := Run(steps).hub, Next(Run(steps), RunRegister(id)).hub;
            && h'.clients == h.clients + {id} && h'.conns == h.conns && h'.rooms == h.rooms
            && (forall u, x :: In(h'.users, u, x) <==> In(h.users, u, x) || (u == h.conns[id].userID && x == id))
  {
    AddedEntries(Run(steps).hub.users, Run(steps).hub.conns[id].userID, id);
  }

  /** A subscription of an open client takes effect on both sides, and leaves its other rooms alone; a
      closed client's does nothing. */
  lemma SubscriptionTakesEffect(steps: seq<Step>, id: string, roomID: string)
    requires id in Run(steps).hub.conns
    ensures var h, h' := Run(steps).hub, Next(Run(steps), Join(id, roomID)).hub;
            if h.conns[id].closed || h.conns[id].closing then h' == h
            else
              && id in h'.conns && h'.conns[id].rooms == h.conns[id].rooms + {roomID}
              && (forall r, x :: In(h'.rooms, r, x) <==> In(h.rooms, r, x) || (r == roomID && x == id))
  {
    RunConsistent(steps);
    AddedEntries(Run(steps).hub.rooms, roomID, id);
  }

  /** An unsubscription takes the client out of that room on both sides, and out of no other. */
  lemma UnsubscriptionTakesEffect(steps: seq<Step>, id: string, roomID: string)
    requires id in Run(steps).hub.conns
    ensures var h, h' := Run(steps).hub, Next(Run(steps), Leave(id, roomID)).hub;
            && id in h'.conns && h'.conns[id].rooms == h.conns[id].rooms - {roomID}
            && (forall r, x :: In(h'.rooms, r, x) <==> In(h.rooms, r, x) && !(r == roomID && x == id))
  {
    RunConsistent(steps);
    RemovedEntries(Run(steps).hub.rooms, roomID, id);
  }

  /** The hub knows nothing of the client any more. */
  ghost predicate Gone(h: Hub, id: string) {
    id !in h.clients && forall k :: !In(h.users, k, id) && !In(h.rooms, k, id)
  }

  /** After its cleanup a registered client is closed and in no index. */
  lemma CleanedIsGone(steps: seq<Step>, id: string)
    requires id in Run(steps).hub.clients
    ensures var h := Next(Run(steps), Clean(id)).hub;
            id in h.conns && h.conns[id].closed && Gone(h, id)
  {
    RunConsistent(steps);
    NextConsistent(Run(steps), Clean(id));
  }

  /** A new client has an empty channel, no rooms, is open and in no index; a drained one is closing, and
      nothing else changes. */
  lemma NewAndDrainTakeEffect(steps: seq<Step>, id: string, userID: string)
    ensures var w := Run(steps); var w' := Next(w, New(id, userID));
            id !in w.hub.conns ==>
              && w'.hub == w.hub.(conns := w.hub.conns[id := w'.hub.conns[id]]) && Gone(w'.hub, id)
              && w'.hub.conns[id].userID == userID && w'.hub.conns[id].rooms == {} && w'.hub.conns[id].send == []
              && !w'.hub.conns[id].closed && !w'.hub.conns[id].closing
    ensures var w := Run(steps); var w' := Next(w, Drain(id));
            id in w.hub.conns ==>
              w' == w.(hub := w.hub.(conns := w.hub.conns[id := w.hub.conns[id].(closing := true)]))
  {
    RunConsistent(steps);
  }

  /** CloseAll closes the registered clients and no others, once; it empties no index and no channel. */
  lemma CloseAllTakesEffect(steps: seq<Step>, id: string)
    requires id in Run(steps).hub.conns
    ensures var h, h' := Run(steps).hub, Next(Run(steps), Shutdown).hub;
            && h'.closed && h'.clients == h.clients && h'.users == h.users && h'.rooms == h.rooms
            && id in h'.conns && h'.conns[id] == h.conns[id].(closed := h'.conns[id].closed)
            && (h'.conns[id].closed <==> h.conns[id].closed || (id in h.clients && !h.closed))
            && Next(Next(Run(steps), Shutdown), Shutdown) == Next(Run(steps), Shutdown)
  {
  }

  predicate Opens(steps: seq<Step>, n: nat, id: string, userID: string) {
    n < |steps| && steps[n] == New(id, userID) && id !in Run(steps[..n]).hub.conns
  }

  lemma StepKeepsUser(w: World, s: Step, id: string)
    requires id in w.hub.conns
    ensures id in Next(w, s).hub.conns && Next(w, s).hub.conns[id].userID == w.hub.conns[id].userID
    ensures w.hub.conns[id].closed ==> Next(w, s).hub.conns[id].closed
  {
    if TouchesQueueOnly(s) {
      QueueStepKeepsUser(w, s, id);
    }
  }

  lemma QueueStepKeepsUser(w: World, s: Step, id: string)
    requires id in w.hub.conns && TouchesQueueOnly(s)
    ensures id in Next(w, s).hub.conns && Next(w, s).hub.conns[id].userID == w.hub.conns[id].userID
    ensures Next(w, s).hub.conns[id].closed == w.hub.conns[id].closed
  {
  }

  /** A client belongs for good to the user it was made for. */
  lemma {:induction false} ClientKeepsItsUser(steps: seq<Step>, n: nat, id: string, userID: string)
    requires Opens(steps, n, id, userID)
    ensures id in Run(steps).hub.conns && Run(steps).hub.conns[id].userID == userID
    decreases |steps|
  {
    var before, s := steps[..|steps| - 1], steps[|steps| - 1];
    if n == |before| {
      assert steps[..n] == before;
    } else {
      assert before[..n] == steps[..n];
      ClientKeepsItsUser(before, n, id, userID);
      StepKeepsUser(Run(before), s, id);
    }
  }
}
