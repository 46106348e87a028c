// Which new messages must reach a client: what its pod takes from the Redis log, and what the pod's
// hub makes of it.
module ClusterDelivery {
  import opened Prelude
  import opened Channels
  import opened HubState
  import opened Cluster
  import Hubs = HubRuns
  import FanOuts = HubFanOut

  /** Only the new-message broadcasts. */
  function NewOnly(ms: seq<BroadcastMessage>): seq<BroadcastMessage> {
    if ms == [] then []
    else NewOnly(ms[..|ms| - 1]) + (if ms[|ms| - 1].data.NewMessage? then [ms[|ms| - 1]] else [])
  }

  lemma NewOnlyAppend(ms: seq<BroadcastMessage>, m: BroadcastMessage)
    ensures NewOnly(ms + [m]) == NewOnly(ms) + (if m.data.NewMessage? then [m] else [])
  {
    assert (ms + [m])[..|ms|] == ms;
  }

  lemma {:induction false} NewOnlyHas(ms: seq<BroadcastMessage>, m: BroadcastMessage)
    ensures m in NewOnly(ms) <==> m in ms && m.data.NewMessage?
  {
    if ms != [] {
      NewOnlyHas(ms[..|ms| - 1], m);
      assert ms == ms[..|ms| - 1] + [ms[|ms| - 1]];
    }
  }

  /** The step makes the pod read a published message while its broadcast channel has room; a channel
      name without a room is passed over. */
  predicate Takes(s: System, step: Step, pod: int) {
    step == Receive(pod) && pod in s.pods &&
    var p := s.pods[pod];
    p.cursor < |s.redis| && |p.queue| < 100 &&
    s.redis[p.cursor].wire.NewWire? && s.redis[p.cursor].wire.roomID != ""
  }

  function Published(s: System, at: nat): BroadcastMessage
    requires at < |s.redis| && s.redis[at].wire.NewWire?
  {
    var wire := s.redis[at].wire;
    BroadcastMessage(wire.roomID, NewMessage(wire.roomID, wire.messageID, at))
  }

  /** The published messages a pod has taken, in log order: not those it missed, nor those that found
      its broadcast channel full. */
  function Taken(steps: seq<Step>, pod: int): seq<BroadcastMessage> {
    if steps == [] then []
    else
      var before, step := steps[..|steps| - 1], steps[|steps| - 1];
      var s := Run(before);
      Taken(before, pod) + (if Takes(s, step, pod) then [Published(s, s.pods[pod].cursor)] else [])
  }

  // ---------- From the Redis log to the hub ----------

  lemma RouteOfNew(s: System, at: nat)
    requires TableOk(s) && at < |s.redis|
    ensures var e, m := s.redis[at], Route(s.redis[at], at);
            if e.wire.NewWire? && e.wire.roomID != "" then m == Some(Published(s, at))
            else m.Some? ==> !m.value.data.NewMessage?
  {
    if s.redis[at].wire.NewWire? {
      RoomChannelParsesIff(s.redis[at].wire.roomID);
    }
  }

  /** Whatever comes on an event channel is never taken for a new message. */
  lemma EventsAreNeverNew(roomID: string, wire: Wire, at: nat)
    requires ':' !in roomID
    ensures var m := Route(Entry(EventsChannel(roomID), wire), at);
            m.Some? ==> m.value.roomID == roomID && !m.value.data.NewMessage?
  {
    EventsChannelParsesIff(roomID);
  }

  /** A step other than a receive brings no new message to a pod. */
  lemma OtherStepsBringNone(s: System, p: Pod, step: Step)
    requires !step.Receive?
    ensures NewOnly(AllMessages(PodNext(s, p, step))) == NewOnly(AllMessages(p))
  {
    var p' := PodNext(s, p, step);
    if step.Typing? && |p.queue| < BROADCAST_BUFFER {
      var m := BroadcastMessage(step.roomID, OtherPayload(step.text));
      assert AllMessages(p') == AllMessages(p) + [m];
      NewOnlyAppend(AllMessages(p), m);
    } else {
      if step.RunNext? && Hubs.Idle(p.world) && p.queue != [] {
        BeginKeepsMessages(p, p');
      } else if step.HubStep? && !step.step.Join? && !step.step.RunBegin? {
        RoomsOnlyShrink(p.world, step.step);
      }
      assert AllMessages(p') == AllMessages(p);
    }
  }

  lemma ReceiveBringsTaken(s: System, p: Pod, step: Step)
    requires TableOk(s) && step.Receive?
    requires step.pod in s.pods && s.pods[step.pod] == p
    ensures NewOnly(AllMessages(PodNext(s, p, step))) ==
            NewOnly(AllMessages(p)) + if Takes(s, step, step.pod) then [Published(s, p.cursor)] else []
  {
    var p' := PodNext(s, p, step);
    if p.cursor < |s.redis| {
      RouteOfNew(s, p.cursor);
      var m := Route(s.redis[p.cursor], p.cursor);
      if m.Some? && |p.queue| < BROADCAST_BUFFER {
        assert AllMessages(p') == AllMessages(p) + [m.value];
        NewOnlyAppend(AllMessages(p), m.value);
      } else {
        assert AllMessages(p') == AllMessages(p);
      }
    }
  }

  /** What a pod's hub has of new messages. */
  function HubNews(s: System, pod: int): seq<BroadcastMessage> {
    if pod in s.pods then NewOnly(AllMessages(s.pods[pod])) else []
  }

  lemma StepBringsTaken(s: System, step: Step, pod: int)
    requires TableOk(s)
    ensures HubNews(Next(s, step), pod) ==
            HubNews(s, pod) + if Takes(s, step, pod) then [Published(s, s.pods[pod].cursor)] else []
  {
    if IsPodStep(step) && step.pod == pod && pod in s.pods {
      SteppedPod(s, step, pod);
      if step.Receive? {
        ReceiveBringsTaken(s, s.pods[pod], step);
      } else {
        OtherStepsBringNone(s, s.pods[pod], step);
      }
    } else if pod in Next(s, step).pods {
      OtherPodsStay(s, step, pod);
    }
  }

  /** The new messages in a pod's hub, processed and waiting, are exactly those the pod has taken. */
  lemma {:induction false} HubHasTheTaken(steps: seq<Step>, pod: int)
    ensures HubNews(Run(steps), pod) == Taken(steps, pod)
  {
    if steps != [] {
      HubHasTheTaken(steps[..|steps| - 1], pod);
      RunOk(steps[..|steps| - 1]);
      StepBringsTaken(Run(steps[..|steps| - 1]), steps[|steps| - 1], pod);
    }
  }

  // ---------- From the hub to the client ----------

  /** The broadcast was processed after the client's registration, is settled for it, and listed it. */
  predicate IsDue(w: Hubs.World, id: string, p: nat) {
    && id in w.registeredAt && w.registeredAt[id] <= p < FanOuts.Settled(w, id) && p < |w.log|
    && id in w.log[p].snapshot
  }

  ghost predicate OnlyPlace(log: seq<Hubs.Logged>, p: nat) {
    p < |log| && forall j | 0 <= j < |log| && log[j].msg == log[p].msg :: j == p
  }

  lemma NewMessagesHaveOnePlace(s: System, p: Pod, i: nat)
    requires MessagesOk(s, AllMessages(p), p.cursor)
    requires i < |p.world.log| && p.world.log[i].msg.data.NewMessage?
    ensures OnlyPlace(p.world.log, i)
  {
    var ms := AllMessages(p);
    forall j | 0 <= j < |p.world.log| && p.world.log[j].msg == p.world.log[i].msg ensures j == i {
      assert ms[i] == p.world.log[i].msg && ms[j] == p.world.log[j].msg;
    }
  }

  lemma AtHas(log: seq<Hubs.Logged>, positions: seq<int>, p: nat)
    requires forall k | 0 <= k < |positions| :: 0 <= positions[k] < |log|
    requires OnlyPlace(log, p)
    ensures log[p].msg in FanOuts.At(log, positions) <==> p in positions
  {
    var ms := FanOuts.At(log, positions);
    if log[p].msg in ms {
      var k :| 0 <= k < |ms| && ms[k] == log[p].msg;
      assert positions[k] == p;
    }
    if p in positions {
      var k :| 0 <= k < |positions| && positions[k] == p;
      assert ms[k] == log[p].msg;
    }
  }

  /** A broadcast of log position `p` is on a receiving client's channel exactly when it is due to it. */
  lemma GetsExactlyTheDue(w: Hubs.World, id: string, p: nat)
    requires WorldOk(w) && FanOuts.Receiving(w, id) && OnlyPlace(w.log, p)
    ensures id in w.enqueued && (w.log[p].msg in FanOuts.Messages(w.enqueued[id]) <==> IsDue(w, id, p))
  {
    FanOuts.ServedIsExact(w, id);
    var due := FanOuts.Expected(w.log, w.registeredAt[id], id, FanOuts.Settled(w, id));
    FanOuts.ExpectedHas(w.log, w.registeredAt[id], id, FanOuts.Settled(w, id), p);
    AtHas(w.log, due, p);
  }

  lemma OnlyProcessed(w: Hubs.World, id: string, m: BroadcastMessage)
    requires WorldOk(w) && FanOuts.Receiving(w, id)
    ensures id in w.enqueued && (m in FanOuts.Messages(w.enqueued[id]) ==> exists k: nat :: ProcessedAt(w, m, k))
  {
    FanOuts.ServedIsExact(w, id);
    var due := FanOuts.Expected(w.log, w.registeredAt[id], id, FanOuts.Settled(w, id));
    var ms := FanOuts.At(w.log, due);
    if m in ms {
      var k :| 0 <= k < |ms| && ms[k] == m;
      assert ProcessedAt(w, m, due[k]);
    }
  }

  /** A message that a pod has taken waits in its broadcast channel, or was processed once, at a
      position that decides for every receiving client: it is on the client's channel exactly when
      it is due to it. No other new message is on any such channel. */
  lemma TakenMessagesArrive(steps: seq<Step>, pod: int, id: string, m: BroadcastMessage)
    requires pod in Run(steps).pods && FanOuts.Receiving(Run(steps).pods[pod].world, id)
    requires m.data.NewMessage?
    ensures var p := Run(steps).pods[pod]; var w := p.world;
            && id in w.enqueued
            && (m in Taken(steps, pod) <==> m in p.queue || exists k: nat :: ProcessedAt(w, m, k))
            && (m in FanOuts.Messages(w.enqueued[id]) <==> exists k: nat :: ProcessedAt(w, m, k) && IsDue(w, id, k))
  {
    RunOk(steps);
    HubHasTheTaken(steps, pod);
    var s := Run(steps);
    var p := s.pods[pod];
    NewOnlyHas(AllMessages(p), m);
    ProcessedOrWaiting(p, m);
    ArrivesIffDue(s, p, id, m);
  }

  predicate ProcessedAt(w: Hubs.World, m: BroadcastMessage, k: nat) { k < |w.log| && w.log[k].msg == m }

  lemma ProcessedOrWaiting(p: Pod, m: BroadcastMessage)
    ensures m in AllMessages(p) <==> m in p.queue || exists k: nat :: ProcessedAt(p.world, m, k)
  {
    var ms := AllMessages(p);
    if m in ms {
      var k :| 0 <= k < |ms| && ms[k] == m;
      if k < |p.world.log| {
        assert ProcessedAt(p.world, m, k);
      }
    }
    if k: nat :| ProcessedAt(p.world, m, k) {
      assert ms[k] == m;
    }
  }

  lemma ArrivesIffDue(s: System, p: Pod, id: string, m: BroadcastMessage)
    requires PodOk(s, p) && FanOuts.Receiving(p.world, id) && m.data.NewMessage?
    ensures id in p.world.enqueued
    ensures m in FanOuts.Messages(p.world.enqueued[id])
            <==> exists k: nat :: ProcessedAt(p.world, m, k) && IsDue(p.world, id, k)
  {
    OnlyProcessed(p.world, id, m);
    forall k: nat | ProcessedAt(p.world, m, k)
      ensures m in FanOuts.Messages(p.world.enqueued[id]) <==> IsDue(p.world, id, k)
    {
      NewMessagesHaveOnePlace(s, p, k);
      GetsExactlyTheDue(p.world, id, k);
    }
  }

  // ---------- Before and after ----------

  /** Whom the broadcast of log position `p` listed: exactly the clients, open when it was taken, that had
      its room among their own then. */
  lemma ListedAreSubscribed(steps: seq<Step>, pod: int, id: string, p: nat) returns (b: nat)
    requires pod in Run(steps).pods && p < |Run(steps).pods[pod].world.log|
    ensures var entry := Run(steps).pods[pod].world.log[p];
            && Begins(steps, b, pod, p, entry)
            && var h := Run(steps[..b]).pods[pod].world.hub;
            id in h.conns && !h.conns[id].closed ==> (id in entry.snapshot <==> entry.msg.roomID in h.conns[id].rooms)
  {
    b := BegunAt(steps, pod, p);
    RunOk(steps[..b]);
    var w := Run(steps[..b]).pods[pod].world;
    var entry := Run(steps).pods[pod].world.log[p];
    assert id in entry.snapshot <==> In(w.hub.rooms, entry.msg.roomID, id);
  }

  /** A pod reads the log entry by entry, whether it keeps what it reads or misses it. */
  lemma ReadsEntryByEntry(s: System, pod: int)
    requires pod in s.pods && s.pods[pod].cursor < |s.redis|
    ensures forall step | step in {Receive(pod), Miss(pod)} ::
              pod in Next(s, step).pods && Next(s, step).pods[pod].cursor == s.pods[pod].cursor + 1
              && Next(s, step).pods[pod].world == s.pods[pod].world
    ensures Next(s, Miss(pod)).pods[pod].queue == s.pods[pod].queue
  {
  }

  /** An idle hub takes the head of its broadcast channel. */
  lemma HeadIsTaken(s: System, pod: int)
    requires pod in s.pods && Hubs.Idle(s.pods[pod].world) && s.pods[pod].queue != []
    ensures var p, s' := s.pods[pod], Next(s, RunNext(pod));
            && pod in s'.pods && s'.pods[pod].queue == p.queue[1..]
            && |s'.pods[pod].world.log| == |p.world.log| + 1
            && s'.pods[pod].world.log[|p.world.log|].msg == p.queue[0]
  {
  }

  /** A call that has stored its message puts it on its room's channel. */
  lemma PublishTakesEffect(steps: seq<Step>, id: int)
    requires id in Run(steps).unpublished
    ensures var s, s' := Run(steps), Next(Run(steps), PublishNew(id));
            && id in s.table && id !in s'.unpublished
            && s'.redis == s.redis + [Entry("ws:room:" + s.table[id], NewWire(s.table[id], id))]
  {
    RunOk(steps);
  }

  /** A member's message with a fresh id is stored, to be published. */
  lemma StoreTakesEffect(s: System, id: int, roomID: string, author: string)
    requires id !in s.table && (roomID, author) in s.members && ':' !in roomID
    ensures var s' := Next(s, Store(id, roomID, author));
            && s'.table == s.table[id := roomID] && s'.unpublished == s.unpublished + {id} && s'.redis == s.redis
  {
  }

  /** A subscription request of an active member leads into the room, unless the client has closed; a
      request of anybody else changes nothing. */
  lemma MembersCanSubscribe(s: System, pod: int, id: string, roomID: string)
    requires pod in s.pods && id in s.pods[pod].world.hub.conns && Hubs.Known(s.pods[pod].world, id)
    ensures var c := s.pods[pod].world.hub.conns[id];
            var s' := Next(Next(s, CheckMember(pod, id, roomID)), SubscribeChecked(pod, id, roomID));
            && ((roomID, c.userID) in s.members && !c.closed && !c.closing ==> IsIn(s', pod, id, roomID))
            && ((roomID, c.userID) !in s.members ==> Next(s, CheckMember(pod, id, roomID)) == s)
  {
    AddedEntries(s.pods[pod].world.hub.rooms, roomID, id);
  }

  /** Step `n` stored the message for an active member of its room. */
  predicate StoredAt(steps: seq<Step>, n: nat, id: int, roomID: string) {
    && n < |steps| && steps[n].Store? && steps[n].messageID == id && steps[n].roomID == roomID
    && (roomID, steps[n].author) in Run(steps[..n]).members
  }

  /** Every row of the table was stored for an active member of its room. */
  lemma {:induction false} RowsAreStoredByMembers(steps: seq<Step>, id: int)
    requires id in Run(steps).table
    ensures exists n: nat :: StoredAt(steps, n, id, Run(steps).table[id])
  {
    var before := steps[..|steps| - 1];
    NextExtends(Run(before), steps[|before|]);
    if id in Run(before).table {
      RowsAreStoredByMembers(before, id);
      var n: nat :| StoredAt(before, n, id, Run(before).table[id]);
      assert steps[..n] == before[..n];
      assert StoredAt(steps, n, id, Run(steps).table[id]);
    } else {
      assert steps[..|before|] == before;
      assert StoredAt(steps, |before|, id, Run(steps).table[id]);
    }
  }

  predicate PublishedAt(s: System, at: nat, id: int) {
    at < |s.redis| && s.redis[at].wire.NewWire? && s.redis[at].wire.messageID == id
  }

  ghost predicate StoredOrPublished(s: System) {
    forall id | id in s.table && id !in s.unpublished :: exists at: nat :: PublishedAt(s, at, id)
  }

  lemma NextStoredOrPublished(s: System, step: Step)
    requires StoredOrPublished(s)
    ensures StoredOrPublished(Next(s, step))
  {
    var s' := Next(s, step);
    forall id | id in s'.table && id !in s'.unpublished ensures exists at: nat :: PublishedAt(s', at, id) {
      if step == PublishNew(id) && id in s.unpublished {
        assert PublishedAt(s', |s.redis|, id);
      } else {
        var at: nat :| PublishedAt(s, at, id);
        NextExtends(s, step);
        assert s'.redis[..|s.redis|][at] == s'.redis[at];
        assert PublishedAt(s', at, id);
      }
    }
  }

  /** In every run a stored message is on the Redis log exactly when its call has published it, and then once. */
  lemma {:induction false} StoredArePublishedOnce(steps: seq<Step>, id: int)
    requires id in Run(steps).table
    ensures var s := Run(steps);
            && (id in s.unpublished <==> forall at: nat :: !PublishedAt(s, at, id))
            && (forall i: nat, j: nat | PublishedAt(s, i, id) && PublishedAt(s, j, id) :: i == j)
  {
    RunOk(steps);
    RunStoredOrPublished(steps);
  }

  lemma {:induction false} RunStoredOrPublished(steps: seq<Step>)
    ensures StoredOrPublished(Run(steps))
  {
    if steps != [] {
      RunStoredOrPublished(steps[..|steps| - 1]);
      NextStoredOrPublished(Run(steps[..|steps| - 1]), steps[|steps| - 1]);
    }
  }
}
