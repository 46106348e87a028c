// Several pods over one Redis log and one message table: from SendMessage on any pod to the
// send channels of the clients of every pod.
module Cluster {
  import opened Prelude
  import opened Channels
  import opened HubState
  import Hubs = HubRuns
  import FanOuts = HubFanOut

  // Capacity of the hub's broadcast channel.
  const BROADCAST_BUFFER: nat := 100

  /** A published payload: a new message, or an edit, deletion, join or leave. */
  datatype Wire = NewWire(roomID: string, messageID: int) | OtherWire(text: string)

  datatype Entry = Entry(channel: string, wire: Wire)

  datatype Pod = Pod(
    world: Hubs.World,
    cursor: nat,                       // how far its subscription is in the Redis log
    queue: seq<BroadcastMessage>,      // the hub's broadcast channel
    checked: set<(string, string)>,    // (client, room) past IsMember, SubscribeToRoom still to come
    granted: set<(string, string)>)    // (client, room) for which IsMember has ever answered yes

  datatype System = System(
    table: map<int, string>,           // message id to the room on its row
    members: set<(string, string)>,    // active (room, user)
    unpublished: set<int>,             // rows created by a SendMessage that has not published yet
    redis: seq<Entry>,
    pods: map<int, Pod>)

  datatype Step =
    | StartPod(pod: int)
    | SetMembers(members: set<(string, string)>)
    | Store(messageID: int, roomID: string, author: string)
    | PublishNew(messageID: int)
    | PublishOther(entry: Entry)
    | Receive(pod: int)
    | Miss(pod: int)
    | Typing(pod: int, roomID: string, text: string)
    | CheckMember(pod: int, id: string, roomID: string)
    | SubscribeChecked(pod: int, id: string, roomID: string)
    | RunNext(pod: int)
    | HubStep(pod: int, step: Hubs.Step)

  function Start(): System { System(map[], {}, {}, [], map[]) }

  function NewPod(): Pod { Pod(Hubs.Start(), 0, [], {}, {}) }

  /** What subscribeToRoomMessages makes of one log entry. */
  function Route(e: Entry, at: nat): Option<BroadcastMessage> {
    var (roomID, event) := ExtractRoomIDAndEvent(e.channel);
    if roomID == "" then None
    else
      match e.wire
      case NewWire(room, id) =>
        Some(BroadcastMessage(roomID, if event == "events" then OtherPayload("") else NewMessage(room, id, at)))
      case OtherWire(text) => Some(BroadcastMessage(roomID, OtherPayload(text)))
  }

  /** A send on the broadcast channel that drops the message when the channel is full. */
  function Offered(queue: seq<BroadcastMessage>, m: BroadcastMessage): seq<BroadcastMessage> {
    if |queue| < BROADCAST_BUFFER then queue + [m] else queue
  }

  function PodNext(s: System, p: Pod, step: Step): Pod {
    match step
    case Receive(_) =>
      if p.cursor < |s.redis| then
        var m := Route(s.redis[p.cursor], p.cursor);
        p.(cursor := p.cursor + 1, queue := if m.Some? then Offered(p.queue, m.value) else p.queue)
      else p
    case Miss(_) => if p.cursor < |s.redis| then p.(cursor := p.cursor + 1) else p
    case Typing(_, roomID, text) => p.(queue := Offered(p.queue, BroadcastMessage(roomID, OtherPayload(text))))
    case CheckMember(_, id, roomID) =>
      if id in p.world.hub.conns && (roomID, p.world.hub.conns[id].userID) in s.members
      then p.(checked := p.checked + {(id, roomID)}, granted := p.granted + {(id, roomID)})
      else p
    case SubscribeChecked(_, id, roomID) =>
      if (id, roomID) in p.checked
      then p.(checked := p.checked - {(id, roomID)}, world := Hubs.Next(p.world, Hubs.Join(id, roomID)))
      else p
    case RunNext(_) =>
      if Hubs.Idle(p.world) && p.queue != []
      then p.(world := Hubs.Next(p.world, Hubs.RunBegin(p.queue[0])), queue := p.queue[1..])
      else p
    case HubStep(_, step) =>
      if step.Join? || step.RunBegin? then p else p.(world := Hubs.Next(p.world, step))
    case _ => p
  }

  predicate IsPodStep(step: Step) {
    step.Receive? || step.Miss? || step.Typing? || step.CheckMember? || step.SubscribeChecked? || step.RunNext?
    || step.HubStep?
  }

  function Next(s: System, step: Step): System {
    match step
    case StartPod(pod) => if pod in s.pods then s else s.(pods := s.pods[pod := NewPod()])
    case SetMembers(members) => s.(members := members)
    case Store(id, roomID, author) =>
      if id !in s.table && (roomID, author) in s.members && ':' !in roomID
      then s.(table := s.table[id := roomID], unpublished := s.unpublished + {id})
      else s
    case PublishNew(id) =>
      if id in s.unpublished && id in s.table
      then s.(redis := s.redis + [Entry(RoomChannel(s.table[id]), NewWire(s.table[id], id))],
              unpublished := s.unpublished - {id})
      else s
    case PublishOther(entry) => if entry.wire.OtherWire? then s.(redis := s.redis + [entry]) else s
    case _ =>
      if step.pod in s.pods then s.(pods := s.pods[step.pod := PodNext(s, s.pods[step.pod], step)]) else s
  }

  function Run(steps: seq<Step>): System {
    if steps == [] then Start() else Next(Run(steps[..|steps| - 1]), steps[|steps| - 1])
  }

  // ---------- Invariants ----------

  /** A new-message payload names a stored message, in its room, and the entry that published it. */
  predicate Backed(s: System, m: BroadcastMessage) {
    m.data.NewMessage? ==>
      && m.data.roomID == m.roomID
      && m.data.messageID in s.table && s.table[m.data.messageID] == m.roomID
      && m.data.entry < |s.redis|
      && s.redis[m.data.entry] == Entry(RoomChannel(m.roomID), NewWire(m.roomID, m.data.messageID))
  }

  ghost predicate TableOk(s: System) {
    && (forall id | id in s.unpublished :: id in s.table)
    && (forall id | id in s.table :: ':' !in s.table[id])
    && (forall k | 0 <= k < |s.redis| && s.redis[k].wire.NewWire? ::
          var w := s.redis[k].wire;
          w.messageID in s.table && w.messageID !in s.unpublished && s.table[w.messageID] == w.roomID
          && s.redis[k].channel == RoomChannel(w.roomID))
    && PublishedOnce(s)
  }

  ghost predicate PublishedOnce(s: System) {
    forall i, j | 0 <= i < j < |s.redis| && s.redis[i].wire.NewWire? && s.redis[j].wire.NewWire? ::
      s.redis[i].wire.messageID != s.redis[j].wire.messageID
  }

  /** The broadcasts of a pod, processed and waiting, in hub order. */
  function AllMessages(p: Pod): seq<BroadcastMessage> {
    seq(|p.world.log|, k requires 0 <= k < |p.world.log| => p.world.log[k].msg) + p.queue
  }

  ghost predicate EntriesIncrease(ms: seq<BroadcastMessage>, below: nat) {
    && (forall k | 0 <= k < |ms| && ms[k].data.NewMessage? :: ms[k].data.entry < below)
    && (forall i, j | 0 <= i < j < |ms| && ms[i].data.NewMessage? && ms[j].data.NewMessage? ::
          ms[i].data.entry < ms[j].data.entry)
  }

  ghost predicate AllBacked(s: System, ms: seq<BroadcastMessage>) {
    forall k | 0 <= k < |ms| :: Backed(s, ms[k])
  }

  ghost predicate GrantsOk(p: Pod) {
    && p.checked <= p.granted
    && (forall r, id | In(p.world.hub.rooms, r, id) :: (id, r) in p.granted)
    && (forall k | 0 <= k < |p.world.log| ::
          forall id | id in p.world.log[k].snapshot :: (id, p.world.log[k].msg.roomID) in p.granted)
  }

  ghost predicate WorldOk(w: Hubs.World) {
    Hubs.Consistent(w) && FanOuts.FanOut(w)
  }

  ghost predicate MessagesOk(s: System, ms: seq<BroadcastMessage>, cursor: nat) {
    cursor <= |s.redis| && AllBacked(s, ms) && EntriesIncrease(ms, cursor)
  }

  ghost predicate PodOk(s: System, p: Pod) {
    WorldOk(p.world) && MessagesOk(s, AllMessages(p), p.cursor) && GrantsOk(p)
  }

  ghost predicate SystemOk(s: System) {
    TableOk(s) && forall pod | pod in s.pods :: PodOk(s, s.pods[pod])
  }

  // ---------- Steps of one pod ----------

  lemma RouteBacked(s: System, at: nat)
    requires TableOk(s) && at < |s.redis| && Route(s.redis[at], at).Some?
    ensures Backed(s, Route(s.redis[at], at).value)
  {
    if s.redis[at].wire.NewWire? {
      RoomChannelParsesIff(s.redis[at].wire.roomID);
    }
  }

  lemma QueueGrows(s: System, p: Pod, p': Pod, m: BroadcastMessage)
    requires AllBacked(s, AllMessages(p)) && EntriesIncrease(AllMessages(p), p.cursor) && Backed(s, m)
    requires p'.world == p.world && p'.queue == Offered(p.queue, m) && p.cursor <= p'.cursor
    requires m.data.NewMessage? ==> p.cursor <= m.data.entry < p'.cursor
    ensures AllBacked(s, AllMessages(p')) && EntriesIncrease(AllMessages(p'), p'.cursor)
  {
    if p'.queue != p.queue {
      assert AllMessages(p') == AllMessages(p) + [m];
    } else {
      assert AllMessages(p') == AllMessages(p);
    }
  }

  predicate IsQueueStep(step: Step) { step.Receive? || step.Miss? || step.Typing? || step.CheckMember? }

  lemma ReceiveMessages(s: System, p: Pod, step: Step)
    requires TableOk(s) && MessagesOk(s, AllMessages(p), p.cursor) && step.Receive?
    ensures var p' := PodNext(s, p, step); MessagesOk(s, AllMessages(p'), p'.cursor)
  {
    var p' := PodNext(s, p, step);
    if p.cursor < |s.redis| {
      var m := Route(s.redis[p.cursor], p.cursor);
      if m.Some? {
        RouteBacked(s, p.cursor);
        QueueGrows(s, p, p', m.value);
      } else {
        assert AllMessages(p') == AllMessages(p);
      }
    }
  }

  lemma QueueStepMessages(s: System, p: Pod, step: Step)
    requires TableOk(s) && MessagesOk(s, AllMessages(p), p.cursor) && IsQueueStep(step)
    ensures var p' := PodNext(s, p, step); MessagesOk(s, AllMessages(p'), p'.cursor)
  {
    var p' := PodNext(s, p, step);
    if step.Receive? {
      ReceiveMessages(s, p, step);
    } else if step.Typing? {
      QueueGrows(s, p, p', BroadcastMessage(step.roomID, OtherPayload(step.text)));
    } else {
      assert AllMessages(p') == AllMessages(p);
    }
  }

  lemma QueueStepGrants(s: System, p: Pod, step: Step)
    requires GrantsOk(p) && IsQueueStep(step)
    ensures GrantsOk(PodNext(s, p, step)) && PodNext(s, p, step).world == p.world
  {
  }

  lemma QueueStepOk(s: System, p: Pod, step: Step)
    requires TableOk(s) && PodOk(s, p) && IsQueueStep(step)
    ensures PodOk(s, PodNext(s, p, step))
  {
    QueueStepMessages(s, p, step);
    QueueStepGrants(s, p, step);
  }

  lemma WorldNextOk(w: Hubs.World, step: Hubs.Step)
    requires WorldOk(w)
    ensures WorldOk(Hubs.Next(w, step))
  {
    Hubs.NextConsistent(w, step);
    FanOuts.NextFanOut(w, step);
  }

  /** The Run goroutine takes the head of its channel: the messages of the pod stay the same sequence. */
  lemma BeginKeepsMessages(p: Pod, p': Pod)
    requires Hubs.Idle(p.world) && p.queue != []
    requires p'.world == Hubs.Next(p.world, Hubs.RunBegin(p.queue[0])) && p'.queue == p.queue[1..]
    ensures AllMessages(p') == AllMessages(p)
  {
  }

  lemma RunNextOk(s: System, p: Pod, step: Step)
    requires PodOk(s, p) && step.RunNext?
    ensures PodOk(s, PodNext(s, p, step))
  {
    var p' := PodNext(s, p, step);
    if Hubs.Idle(p.world) && p.queue != [] {
      WorldNextOk(p.world, Hubs.RunBegin(p.queue[0]));
      BeginKeepsMessages(p, p');
      BeginGrants(p, p', p.queue[0]);
    }
  }

  lemma BeginGrants(p: Pod, p': Pod, m: BroadcastMessage)
    requires GrantsOk(p) && Hubs.Idle(p.world)
    requires p'.world == Hubs.Next(p.world, Hubs.RunBegin(m)) && p'.checked == p.checked && p'.granted == p.granted
    ensures GrantsOk(p')
  {
    assert p'.world.log == p.world.log + [Hubs.Logged(m, Snapshot(p.world.hub, m.roomID))];
    forall id | id in Snapshot(p.world.hub, m.roomID) ensures (id, m.roomID) in p'.granted {
      assert In(p.world.hub.rooms, m.roomID, id);
    }
  }

  /** No hub step other than a subscription puts anybody into a room. */
  lemma RoomsOnlyShrink(w: Hubs.World, step: Hubs.Step)
    requires !step.Join?
    ensures forall r, id | In(Hubs.Next(w, step).hub.rooms, r, id) :: In(w.hub.rooms, r, id)
    ensures !step.RunBegin? ==> Hubs.Next(w, step).log == w.log
  {
    match step
    case Leave(id, roomID) => RemovedEntries(w.hub.rooms, roomID, id);
    case Clean(id) => if Hubs.Known(w, id) { LeftEntries(w.hub.rooms, w.hub.conns[id].rooms, id); }
    case RunEvict =>
      if w.focus.FoundFull? && Hubs.Known(w, w.focus.id) {
        LeftEntries(w.hub.rooms, w.hub.conns[w.focus.id].rooms, w.focus.id);
      }
    case _ =>
  }

  lemma HubStepGrants(p: Pod, p': Pod, step: Hubs.Step)
    requires GrantsOk(p) && !step.Join? && !step.RunBegin?
    requires p' == p.(world := Hubs.Next(p.world, step))
    ensures GrantsOk(p') && AllMessages(p') == AllMessages(p)
  {
    RoomsOnlyShrink(p.world, step);
  }

  lemma PodParts(s: System, p: Pod, p': Pod)
    requires MessagesOk(s, AllMessages(p), p.cursor) && AllMessages(p') == AllMessages(p) && p'.cursor == p.cursor
    requires WorldOk(p'.world) && GrantsOk(p')
    ensures PodOk(s, p')
  {
  }

  lemma HubStepPod(s: System, p: Pod, step: Step)
    requires step.HubStep?
    ensures PodNext(s, p, step) ==
            if step.step.Join? || step.step.RunBegin? then p else p.(world := Hubs.Next(p.world, step.step))
  {
  }

  lemma HubWorldOk(s: System, p: Pod, step: Hubs.Step)
    requires PodOk(s, p) && !step.Join? && !step.RunBegin?
    ensures PodOk(s, p.(world := Hubs.Next(p.world, step)))
  {
    var p' := p.(world := Hubs.Next(p.world, step));
    WorldNextOk(p.world, step);
    HubStepGrants(p, p', step);
    PodParts(s, p, p');
  }

  lemma HubStepOk(s: System, p: Pod, step: Step)
    requires PodOk(s, p) && step.HubStep?
    ensures PodOk(s, PodNext(s, p, step))
  {
    HubStepPod(s, p, step);
    if !step.step.Join? && !step.step.RunBegin? {
      HubWorldOk(s, p, step.step);
    }
  }

  lemma JoinGrants(p: Pod, p': Pod, id: string, roomID: string)
    requires GrantsOk(p) && (id, roomID) in p.checked
    requires p'.world == Hubs.Next(p.world, Hubs.Join(id, roomID))
    requires p'.checked == p.checked - {(id, roomID)} && p'.granted == p.granted
    ensures GrantsOk(p') && p'.world.log == p.world.log
    ensures p'.queue == p.queue ==> AllMessages(p') == AllMessages(p)
  {
    AddedEntries(p.world.hub.rooms, roomID, id);
  }

  lemma SubscribeOk(s: System, p: Pod, step: Step)
    requires PodOk(s, p) && step.SubscribeChecked?
    ensures PodOk(s, PodNext(s, p, step))
  {
    SubscribePod(s, p, step);
    if (step.id, step.roomID) in p.checked {
      JoinWorldOk(s, p, step.id, step.roomID);
    }
  }

  function Used(p: Pod, id: string, roomID: string): Pod {
    p.(checked := p.checked - {(id, roomID)}, world := Hubs.Next(p.world, Hubs.Join(id, roomID)))
  }

  lemma SubscribePod(s: System, p: Pod, step: Step)
    requires step.SubscribeChecked?
    ensures PodNext(s, p, step) ==
            if (step.id, step.roomID) in p.checked then Used(p, step.id, step.roomID) else p
  {
  }

  lemma JoinWorldOk(s: System, p: Pod, id: string, roomID: string)
    requires PodOk(s, p) && (id, roomID) in p.checked
    ensures PodOk(s, Used(p, id, roomID))
  {
    WorldNextOk(p.world, Hubs.Join(id, roomID));
    JoinGrants(p, Used(p, id, roomID), id, roomID);
    PodParts(s, p, Used(p, id, roomID));
  }

  lemma PodNextOk(s: System, p: Pod, step: Step)
    requires TableOk(s) && PodOk(s, p)
    ensures PodOk(s, PodNext(s, p, step))
  {
    match step
    case RunNext(_) => RunNextOk(s, p, step);
    case HubStep(_, _) => HubStepOk(s, p, step);
    case SubscribeChecked(_, _, _) => SubscribeOk(s, p, step);
    case Receive(_) => QueueStepOk(s, p, step);
    case Miss(_) => QueueStepOk(s, p, step);
    case Typing(_, _, _) => QueueStepOk(s, p, step);
    case CheckMember(_, _, _) => QueueStepOk(s, p, step);
    case _ =>
  }

  // ---------- Steps of the system ----------

  /** Rows are never taken back and the log is only appended to. */
  predicate Extends(s: System, s': System) {
    && (forall id | id in s.table :: id in s'.table && s'.table[id] == s.table[id])
    && |s.redis| <= |s'.redis| && s'.redis[..|s.redis|] == s.redis
  }

  lemma PodOkExtends(s: System, s': System, p: Pod)
    requires PodOk(s, p) && Extends(s, s')
    ensures PodOk(s', p)
  {
    var ms := AllMessages(p);
    forall k | 0 <= k < |ms| ensures Backed(s', ms[k]) {
      assert Backed(s, ms[k]);
      if ms[k].data.NewMessage? {
        assert s'.redis[..|s.redis|][ms[k].data.entry] == s'.redis[ms[k].data.entry];
      }
    }
  }

  lemma TableNextOk(s: System, step: Step)
    requires TableOk(s)
    ensures TableOk(Next(s, step)) && Extends(s, Next(s, step))
  {
    NextExtends(s, step);
    NextPublishesOnce(s, step);
  }

  lemma NextExtends(s: System, step: Step)
    ensures Extends(s, Next(s, step))
  {
  }

  lemma NextPublishesOnce(s: System, step: Step)
    requires TableOk(s)
    ensures PublishedOnce(Next(s, step))
  {
  }

  lemma NewPodOk(s: System)
    ensures PodOk(s, NewPod())
  {
    Hubs.RunConsistent([]);
    FanOuts.RunFanOut([]);
  }

  lemma SteppedPod(s: System, step: Step, pod: int)
    requires IsPodStep(step) && step.pod == pod && pod in s.pods
    ensures Next(s, step) == s.(pods := s.pods[pod := PodNext(s, s.pods[pod], step)])
  {
  }

  lemma NextPodOk(s: System, p: Pod, step: Step, pods: map<int, Pod>)
    requires TableOk(s) && PodOk(s, p)
    ensures PodOk(s.(pods := pods), PodNext(s, p, step))
  {
    PodNextOk(s, p, step);
    PodOkElsewhere(s, pods, PodNext(s, p, step));
  }

  lemma SteppedPodOk(s: System, step: Step, pod: int)
    requires TableOk(s) && pod in s.pods && PodOk(s, s.pods[pod]) && IsPodStep(step) && step.pod == pod
    ensures pod in Next(s, step).pods && PodOk(Next(s, step), Next(s, step).pods[pod])
  {
    var p' := PodNext(s, s.pods[pod], step);
    var pods := s.pods[pod := p'];
    SteppedPod(s, step, pod);
    NextPodOk(s, s.pods[pod], step, pods);
    assert pods[pod] == p';
  }

  lemma PodOkElsewhere(s: System, pods: map<int, Pod>, p: Pod)
    requires PodOk(s, p)
    ensures PodOk(s.(pods := pods), p)
  {
    var s' := s.(pods := pods);
    forall k | 0 <= k < |AllMessages(p)| ensures Backed(s', AllMessages(p)[k]) {
      assert Backed(s, AllMessages(p)[k]);
    }
  }

  lemma OtherPodsStay(s: System, step: Step, pod: int)
    requires pod in Next(s, step).pods && !(IsPodStep(step) && step.pod == pod)
    ensures Next(s, step).pods[pod] == if pod in s.pods then s.pods[pod] else NewPod()
  {
  }

  lemma StayingPodOk(s: System, s': System, pod: int)
    requires SystemOk(s) && Extends(s, s') && pod in s'.pods
    requires s'.pods[pod] == if pod in s.pods then s.pods[pod] else NewPod()
    ensures PodOk(s', s'.pods[pod])
  {
    if pod in s.pods {
      PodOkExtends(s, s', s.pods[pod]);
    } else {
      NewPodOk(s');
    }
  }

  lemma PodAfterStep(s: System, step: Step, pod: int)
    requires SystemOk(s) && pod in Next(s, step).pods
    ensures PodOk(Next(s, step), Next(s, step).pods[pod])
  {
    if IsPodStep(step) && step.pod == pod {
      SteppedPodOk(s, step, pod);
    } else {
      TableNextOk(s, step);
      OtherPodsStay(s, step, pod);
      StayingPodOk(s, Next(s, step), pod);
    }
  }

  lemma NextOk(s: System, step: Step)
    requires SystemOk(s)
    ensures SystemOk(Next(s, step))
  {
    TableNextOk(s, step);
    forall pod | pod in Next(s, step).pods ensures PodOk(Next(s, step), Next(s, step).pods[pod]) {
      PodAfterStep(s, step, pod);
    }
  }

  lemma {:induction false} RunOk(steps: seq<Step>)
    ensures SystemOk(Run(steps))
  {
    if steps != [] {
      RunOk(steps[..|steps| - 1]);
      NextOk(Run(steps[..|steps| - 1]), steps[|steps| - 1]);
    }
  }

  // ---------- End to end ----------

  /** The k-th thing ever put on a client's channel is a new-message frame. */
  predicate IsNewFrame(w: Hubs.World, id: string, k: nat) {
    && id in w.enqueued && k < |w.enqueued[id]|
    && w.enqueued[id][k].frame.RoomFrame? && w.enqueued[id][k].frame.msg.data.NewMessage?
  }

  function NewFrame(w: Hubs.World, id: string, k: nat): BroadcastMessage
    requires IsNewFrame(w, id, k)
  {
    w.enqueued[id][k].frame.msg
  }

  lemma FrameIsLogged(s: System, p: Pod, id: string, k: nat)
    requires PodOk(s, p) && IsNewFrame(p.world, id, k)
    ensures var q := p.world.enqueued[id][k];
            && 0 <= q.pos < |p.world.log| && q.frame == RoomFrame(p.world.log[q.pos].msg)
            && id in p.world.log[q.pos].snapshot
  {
    assert FanOuts.Served(p.world, id);
    assert p.world.enqueued[id][k] in p.world.enqueued[id];
  }

  /** At step `n` the pod asked IsMember for this client and room, and the user was a member then. */
  predicate PassedCheck(steps: seq<Step>, n: nat, pod: int, id: string, roomID: string) {
    && n < |steps| && steps[n] == CheckMember(pod, id, roomID)
    && var s := Run(steps[..n]);
    pod in s.pods && id in s.pods[pod].world.hub.conns
    && (roomID, s.pods[pod].world.hub.conns[id].userID) in s.members
  }

  predicate IsGranted(s: System, pod: int, id: string, roomID: string) {
    pod in s.pods && (id, roomID) in s.pods[pod].granted
  }

  lemma GrantedOnlyByCheck(s: System, step: Step, pod: int, id: string, roomID: string)
    requires IsGranted(Next(s, step), pod, id, roomID) && !IsGranted(s, pod, id, roomID)
    ensures step == CheckMember(pod, id, roomID) && pod in s.pods && id in s.pods[pod].world.hub.conns
    ensures (roomID, s.pods[pod].world.hub.conns[id].userID) in s.members
  {
  }

  lemma {:induction false} GrantsAreEarned(steps: seq<Step>, pod: int, id: string, roomID: string)
    requires IsGranted(Run(steps), pod, id, roomID)
    ensures exists n: nat :: PassedCheck(steps, n, pod, id, roomID)
  {
    var before := steps[..|steps| - 1];
    var s := Run(before);
    if IsGranted(s, pod, id, roomID) {
      GrantsAreEarned(before, pod, id, roomID);
      var n: nat :| PassedCheck(before, n, pod, id, roomID);
      assert steps[..n] == before[..n];
      assert PassedCheck(steps, n, pod, id, roomID);
    } else {
      GrantedOnlyByCheck(s, steps[|before|], pod, id, roomID);
      assert steps[..|before|] == before;
      assert PassedCheck(steps, |before|, pod, id, roomID);
    }
  }

  // ---------- The subscription in force ----------

  predicate IsChecked(s: System, pod: int, id: string, roomID: string) {
    pod in s.pods && (id, roomID) in s.pods[pod].checked
  }

  predicate IsIn(s: System, pod: int, id: string, roomID: string) {
    pod in s.pods && In(s.pods[pod].world.hub.rooms, roomID, id)
  }

  /** The check of step `n` stands, not yet used by a subscription, up to step `m`. */
  ghost predicate CheckStands(steps: seq<Step>, n: nat, m: nat, pod: int, id: string, roomID: string) {
    && PassedCheck(steps, n, pod, id, roomID) && n < m <= |steps|
    && (forall k | n < k <= m :: IsChecked(Run(steps[..k]), pod, id, roomID))
  }

  /** The check of step `n` let step `m` subscribe the client, which stays in the room up to step `b`. */
  ghost predicate InForce(steps: seq<Step>, n: nat, m: nat, b: nat, pod: int, id: string, roomID: string) {
    && CheckStands(steps, n, m, pod, id, roomID)
    && m < b <= |steps| && steps[m] == SubscribeChecked(pod, id, roomID)
    && (forall k | m < k <= b :: IsIn(Run(steps[..k]), pod, id, roomID))
  }

  /** Step `b` takes the broadcast of log position `p` and lists the clients then in its room. */
  ghost predicate Begins(steps: seq<Step>, b: nat, pod: int, p: nat, entry: Hubs.Logged) {
    && b < |steps| && steps[b] == RunNext(pod)
    && var s := Run(steps[..b]);
    && pod in s.pods && |s.pods[pod].world.log| == p
    && entry.snapshot == Snapshot(s.pods[pod].world.hub, entry.msg.roomID)
  }

  lemma CheckedOnlyByCheck(s: System, step: Step, pod: int, id: string, roomID: string)
    requires IsChecked(Next(s, step), pod, id, roomID) && !IsChecked(s, pod, id, roomID)
    ensures step == CheckMember(pod, id, roomID) && pod in s.pods && id in s.pods[pod].world.hub.conns
    ensures (roomID, s.pods[pod].world.hub.conns[id].userID) in s.members
  {
  }

  lemma EntersOnlyChecked(s: System, step: Step, pod: int, id: string, roomID: string)
    requires IsIn(Next(s, step), pod, id, roomID) && !IsIn(s, pod, id, roomID)
    ensures step == SubscribeChecked(pod, id, roomID) && IsChecked(s, pod, id, roomID)
  {
    if pod in s.pods {
      var w := s.pods[pod].world;
      match step
      case SubscribeChecked(_, c, r) => AddedEntries(w.hub.rooms, r, c);
      case HubStep(_, step) => if !step.Join? { RoomsOnlyShrink(w, step); }
      case _ =>
    }
  }

  lemma StandsInLonger(steps: seq<Step>, j: nat, n: nat, m: nat, pod: int, id: string, roomID: string)
    requires j <= |steps| && CheckStands(steps[..j], n, m, pod, id, roomID)
    ensures CheckStands(steps, n, m, pod, id, roomID)
  {
    forall k | 0 <= k <= m ensures steps[..j][..k] == steps[..k] {}
  }

  lemma InForceInLonger(steps: seq<Step>, j: nat, n: nat, m: nat, b: nat, pod: int, id: string, roomID: string)
    requires j <= |steps| && InForce(steps[..j], n, m, b, pod, id, roomID)
    ensures InForce(steps, n, m, b, pod, id, roomID)
  {
    StandsInLonger(steps, j, n, m, pod, id, roomID);
    forall k | 0 <= k <= b ensures steps[..j][..k] == steps[..k] {}
  }

  lemma {:induction false} CheckedSince(steps: seq<Step>, pod: int, id: string, roomID: string) returns (n: nat)
    requires IsChecked(Run(steps), pod, id, roomID)
    ensures CheckStands(steps, n, |steps|, pod, id, roomID)
  {
    var last := |steps| - 1;
    var before := steps[..last];
    assert steps[..|steps|] == steps;
    if IsChecked(Run(before), pod, id, roomID) {
      n := CheckedSince(before, pod, id, roomID);
      StandsInLonger(steps, last, n, last, pod, id, roomID);
    } else {
      CheckedOnlyByCheck(Run(before), steps[last], pod, id, roomID);
      n := last;
    }
  }

  lemma {:induction false} InSince(steps: seq<Step>, pod: int, id: string, roomID: string) returns (n: nat, m: nat)
    requires IsIn(Run(steps), pod, id, roomID)
    ensures InForce(steps, n, m, |steps|, pod, id, roomID)
  {
    var last := |steps| - 1;
    var before := steps[..last];
    assert steps[..|steps|] == steps;
    if IsIn(Run(before), pod, id, roomID) {
      n, m := InSince(before, pod, id, roomID);
      InForceInLonger(steps, last, n, m, last, pod, id, roomID);
    } else {
      EntersOnlyChecked(Run(before), steps[last], pod, id, roomID);
      n := CheckedSince(before, pod, id, roomID);
      m := last;
      StandsInLonger(steps, last, n, m, pod, id, roomID);
    }
  }

  lemma LogGrowsByBegin(s: System, step: Step, pod: int)
    requires pod in Next(s, step).pods
    ensures var log := Next(s, step).pods[pod].world.log;
            log == (if pod in s.pods then s.pods[pod].world.log else []) ||
            (step == RunNext(pod) && pod in s.pods && |log| == |s.pods[pod].world.log| + 1 &&
             log[..|log| - 1] == s.pods[pod].world.log &&
             log[|log| - 1].snapshot == Snapshot(s.pods[pod].world.hub, log[|log| - 1].msg.roomID))
  {
    if pod in s.pods {
      var w := s.pods[pod].world;
      match step
      case HubStep(_, step) => if !step.Join? { RoomsOnlyShrink(w, step); }
      case _ =>
    }
  }

  lemma {:induction false} BegunAt(steps: seq<Step>, pod: int, p: nat) returns (b: nat)
    requires pod in Run(steps).pods && p < |Run(steps).pods[pod].world.log|
    ensures Begins(steps, b, pod, p, Run(steps).pods[pod].world.log[p])
  {
    var last := |steps| - 1;
    var before := steps[..last];
    var s := Run(before);
    LogGrowsByBegin(s, steps[last], pod);
    if pod in s.pods && p < |s.pods[pod].world.log| {
      b := BegunAt(before, pod, p);
      assert steps[..b] == before[..b];
    } else {
      b := last;
    }
  }

  /** When the broadcast of log position `p` was taken the client was in its room by a subscription
      that had passed IsMember. */
  ghost predicate ListedByRight(steps: seq<Step>, pod: int, id: string, p: int, entry: Hubs.Logged) {
    p >= 0 && exists n: nat, m: nat, b: nat ::
      InForce(steps, n, m, b, pod, id, entry.msg.roomID) && Begins(steps, b, pod, p, entry)
  }

  lemma ListedAreListedByRight(steps: seq<Step>, pod: int, id: string, p: nat)
    requires pod in Run(steps).pods && p < |Run(steps).pods[pod].world.log|
    requires id in Run(steps).pods[pod].world.log[p].snapshot
    ensures ListedByRight(steps, pod, id, p, Run(steps).pods[pod].world.log[p])
  {
    var entry := Run(steps).pods[pod].world.log[p];
    var b := BegunAt(steps, pod, p);
    var n, m := InSince(steps[..b], pod, id, entry.msg.roomID);
    InForceInLonger(steps, b, n, m, b, pod, id, entry.msg.roomID);
  }

  lemma FrameIsBacked(s: System, p: Pod, id: string, k: nat)
    requires PodOk(s, p) && IsNewFrame(p.world, id, k)
    ensures Backed(s, NewFrame(p.world, id, k))
  {
    FrameIsLogged(s, p, id, k);
    assert AllMessages(p)[p.world.enqueued[id][k].pos] == NewFrame(p.world, id, k);
  }

  /** Every new-message frame on any channel of any pod names a stored message of that room, and its
      client was in the room by right when the frame's broadcast was taken. */
  lemma DeliveredMessagesAreReal(steps: seq<Step>, pod: int, id: string, k: nat)
    requires pod in Run(steps).pods && IsNewFrame(Run(steps).pods[pod].world, id, k)
    ensures var s := Run(steps); var w := s.pods[pod].world; var f := NewFrame(w, id, k);
            && f.data.roomID == f.roomID
            && f.data.messageID in s.table && s.table[f.data.messageID] == f.roomID
            && var p := w.enqueued[id][k].pos;
            && 0 <= p < |w.log| && w.log[p].msg == f
            && ListedByRight(steps, pod, id, p, w.log[p])
  {
    RunOk(steps);
    var p := Run(steps).pods[pod];
    FrameIsBacked(Run(steps), p, id, k);
    FrameIsLogged(Run(steps), p, id, k);
    ListedAreListedByRight(steps, pod, id, p.world.enqueued[id][k].pos);
  }

  lemma {:induction false} PositionsInOrder(queued: seq<Hubs.Queued>, a: nat, b: nat)
    requires StrictlyIncreasing(FanOuts.Positions(queued))
    requires a < b < |queued| && queued[a].pos >= 0 && queued[b].pos >= 0
    ensures queued[a].pos < queued[b].pos
    decreases |queued|
  {
    var before := queued[..|queued| - 1];
    var positions := FanOuts.Positions(queued);
    assert StrictlyIncreasing(FanOuts.Positions(before)) by {
      assert FanOuts.Positions(before) <= positions;
    }
    if b < |queued| - 1 {
      PositionsInOrder(before, a, b);
    } else {
      PositionListed(before, a);
      var n :| 0 <= n < |FanOuts.Positions(before)| && FanOuts.Positions(before)[n] == queued[a].pos;
      assert positions[n] < positions[|positions| - 1];
    }
  }

  lemma {:induction false} PositionListed(queued: seq<Hubs.Queued>, a: nat)
    requires a < |queued| && queued[a].pos >= 0
    ensures queued[a].pos in FanOuts.Positions(queued)
  {
    if a < |queued| - 1 {
      PositionListed(queued[..|queued| - 1], a);
    }
  }

  lemma FrameMessage(s: System, p: Pod, id: string, k: nat)
    requires PodOk(s, p) && IsNewFrame(p.world, id, k)
    ensures var q := p.world.enqueued[id][k];
            0 <= q.pos < |p.world.log| && AllMessages(p)[q.pos] == NewFrame(p.world, id, k)
  {
    FrameIsLogged(s, p, id, k);
  }

  lemma FramesInOrder(s: System, p: Pod, id: string, a: nat, b: nat)
    requires PodOk(s, p) && a < b && IsNewFrame(p.world, id, a) && IsNewFrame(p.world, id, b)
    ensures NewFrame(p.world, id, a).data.entry < NewFrame(p.world, id, b).data.entry
  {
    FrameMessage(s, p, id, a);
    FrameMessage(s, p, id, b);
    PositionsKeepOrder(p.world, id, a, b);
  }

  lemma PositionsKeepOrder(w: Hubs.World, id: string, a: nat, b: nat)
    requires WorldOk(w) && id in w.enqueued && a < b < |w.enqueued[id]|
    requires w.enqueued[id][a].pos >= 0 && w.enqueued[id][b].pos >= 0
    ensures w.enqueued[id][a].pos < w.enqueued[id][b].pos
  {
    assert FanOuts.Served(w, id);
    PositionsInOrder(w.enqueued[id], a, b);
  }

  lemma EntriesDiffer(s: System, m: BroadcastMessage, n: BroadcastMessage)
    requires TableOk(s) && Backed(s, m) && Backed(s, n) && m.data.NewMessage? && n.data.NewMessage?
    requires m.data.entry < n.data.entry
    ensures s.redis[m.data.entry].wire == NewWire(m.roomID, m.data.messageID)
    ensures s.redis[n.data.entry].wire == NewWire(n.roomID, n.data.messageID)
    ensures m.data.messageID != n.data.messageID
  {
    assert PublishedOnce(s);
  }

  /** For each client new messages come in publish order, and no message comes twice. */
  lemma DeliveryFollowsPublishOrder(steps: seq<Step>, pod: int, id: string, a: nat, b: nat)
    requires pod in Run(steps).pods && a < b
    requires IsNewFrame(Run(steps).pods[pod].world, id, a) && IsNewFrame(Run(steps).pods[pod].world, id, b)
    ensures var s := Run(steps); var w := s.pods[pod].world;
            var m, n := NewFrame(w, id, a).data, NewFrame(w, id, b).data;
            && m.entry < n.entry < |s.redis|
            && s.redis[m.entry].wire == NewWire(m.roomID, m.messageID)
            && s.redis[n.entry].wire == NewWire(n.roomID, n.messageID)
            && m.messageID != n.messageID
  {
    RunOk(steps);
    var s := Run(steps);
    var p := s.pods[pod];
    FrameIsBacked(s, p, id, a);
    FrameIsBacked(s, p, id, b);
    FramesInOrder(s, p, id, a, b);
    EntriesDiffer(s, NewFrame(p.world, id, a), NewFrame(p.world, id, b));
  }
}
