// The fan-out law: what is put on a client's send channel, in every interleaving.
module HubFanOut {
  import opened Prelude
  import opened HubState
  import opened HubRuns

  /** The broadcast being served has not been settled for this client yet. */
  predicate Pending(w: World, id: string) {
    id in w.todo || (w.focus != NoFocus && w.focus.id == id)
  }

  /** How many broadcasts are settled for this client. */
  function Settled(w: World, id: string): nat {
    if Pending(w, id) && w.log != [] then |w.log| - 1 else |w.log|
  }

  /** Log positions in [from, upTo) whose snapshot listed the client. */
  function Expected(log: seq<Logged>, from: nat, id: string, upTo: nat): seq<int>
    requires upTo <= |log|
  {
    if upTo <= from then []
    else Expected(log, from, id, upTo - 1) + (if id in log[upTo - 1].snapshot then [upTo - 1] else [])
  }

  /** Log positions of the room frames among what was put on a channel. */
  function Positions(queued: seq<Queued>): seq<int> {
    if queued == [] then []
    else
      var q := queued[|queued| - 1];
      Positions(queued[..|queued| - 1]) + (if q.pos >= 0 then [q.pos] else [])
  }

  function Messages(queued: seq<Queued>): seq<BroadcastMessage> {
    if queued == [] then []
    else
      var q := queued[|queued| - 1];
      Messages(queued[..|queued| - 1]) + (if q.frame.RoomFrame? then [q.frame.msg] else [])
  }

  function Frames(queued: seq<Queued>): seq<Frame> {
    seq(|queued|, k requires 0 <= k < |queued| => queued[k].frame)
  }

  lemma PositionsAppend(queued: seq<Queued>, q: Queued)
    ensures Positions(queued + [q]) == Positions(queued) + (if q.pos >= 0 then [q.pos] else [])
    ensures Messages(queued + [q]) == Messages(queued) + (if q.frame.RoomFrame? then [q.frame.msg] else [])
  {
    assert (queued + [q])[..|queued|] == queued;
  }

  lemma {:induction false} ExpectedPrefix(log: seq<Logged>, next: Logged, from: nat, id: string, upTo: nat)
    requires upTo <= |log|
    ensures Expected(log + [next], from, id, upTo) == Expected(log, from, id, upTo)
  {
    if upTo > from {
      ExpectedPrefix(log, next, from, id, upTo - 1);
    }
  }

  // ---------- The invariant ----------

  ghost predicate TurnOk(w: World) {
    && (!Idle(w) ==> w.log != [])
    && (w.log != [] ==> forall id | Pending(w, id) :: id in w.log[|w.log| - 1].snapshot)
    && (w.focus != NoFocus ==> w.focus.id !in w.todo && w.focus.id in w.registeredAt)
    && (forall id | id in w.registeredAt :: w.registeredAt[id] <= if Idle(w) then |w.log| else |w.log| - 1)
  }

  /** Every queued room frame is one of the first `upTo` broadcasts and listed the client; each once, in order. */
  ghost predicate Genuine(log: seq<Logged>, upTo: nat, id: string, queued: seq<Queued>)
    requires upTo <= |log|
  {
    && StrictlyIncreasing(Positions(queued))
    && (forall p | p in Positions(queued) :: 0 <= p < upTo)
    && (forall q | q in queued ::
          if q.pos < 0 then q.frame.DirectFrame?
          else q.pos < upTo && q.frame == RoomFrame(log[q.pos].msg) && id in log[q.pos].snapshot)
  }

  /** Registered, and neither closed nor about to close its channel. */
  predicate Receiving(w: World, id: string) {
    id in w.hub.clients && id in w.hub.conns && !IsClosed(w.hub.conns[id])
  }

  /** A receiving client has got every settled broadcast that listed it since it registered. */
  ghost predicate Complete(w: World, id: string)
    requires Known(w, id)
  {
    && (id !in w.registeredAt ==> Positions(w.enqueued[id]) == [])
    && (id in w.registeredAt && Receiving(w, id) ==>
          Positions(w.enqueued[id]) == Expected(w.log, w.registeredAt[id], id, Settled(w, id)))
  }

  ghost predicate Conserved(w: World, id: string)
    requires Known(w, id)
  {
    Frames(w.enqueued[id]) == w.written[id] + w.hub.conns[id].send
  }

  ghost predicate Served(w: World, id: string) {
    && Known(w, id)
    && Genuine(w.log, Settled(w, id), id, w.enqueued[id])
    && Complete(w, id)
    && Conserved(w, id)
  }

  // ---------- Steps ----------

  lemma GenuineRoomFrame(log: seq<Logged>, id: string, queued: seq<Queued>)
    requires log != [] && id in log[|log| - 1].snapshot && Genuine(log, |log| - 1, id, queued)
    ensures Genuine(log, |log|, id, queued + [Queued(RoomFrame(log[|log| - 1].msg), |log| - 1)])
  {
    var q := Queued(RoomFrame(log[|log| - 1].msg), |log| - 1);
    PositionsAppend(queued, q);
    var before := Positions(queued);
    assert before != [] ==> before[|before| - 1] in before;
    AppendIncreasing(before, q.pos);
  }

  lemma GenuineDirectFrame(log: seq<Logged>, upTo: nat, id: string, queued: seq<Queued>, text: string)
    requires upTo <= |log| && Genuine(log, upTo, id, queued)
    ensures Genuine(log, upTo, id, queued + [Queued(DirectFrame(text), -1)])
  {
    PositionsAppend(queued, Queued(DirectFrame(text), -1));
  }

  lemma GenuineLater(log: seq<Logged>, next: Logged, upTo: nat, upTo': nat, id: string, queued: seq<Queued>)
    requires upTo <= |log| && upTo <= upTo' <= |log| + 1 && Genuine(log, upTo, id, queued)
    ensures Genuine(log + [next], upTo', id, queued)
  {
  }

  lemma FramesAppend(queued: seq<Queued>, q: Queued)
    ensures Frames(queued + [q]) == Frames(queued) + [q.frame]
  {
  }

  /** Steps that leave a client's broadcasts and channel alone and never reopen it. */
  lemma ServedFrame(w: World, w': World, id: string)
    requires Served(w, id) && Known(w', id)
    requires w'.log == w.log && w'.enqueued[id] == w.enqueued[id] && w'.written[id] == w.written[id]
    requires w'.hub.conns[id].send == w.hub.conns[id].send
    requires Pending(w', id) <==> Pending(w, id)
    requires id in w'.registeredAt <==> id in w.registeredAt
    requires id in w.registeredAt ==> w'.registeredAt[id] == w.registeredAt[id]
    requires Receiving(w', id) ==> Receiving(w, id)
    ensures Served(w', id)
  {
  }

  lemma BeginTurnOk(w: World, s: Step)
    requires TurnOk(w) && Lifecycle(w) && (s.RunBegin? || s.RunLookup? || s.RunRegister?)
    ensures TurnOk(Next(w, s))
  {
    var w' := Next(w, s);
    if w'.log == w.log {
      assert forall id | Pending(w', id) :: Pending(w, id);
    }
  }

  lemma TurnFrame(w: World, w': World)
    requires TurnOk(w)
    requires w'.log == w.log && w'.registeredAt == w.registeredAt && w'.todo == w.todo
    requires w'.focus == NoFocus || (w.focus != NoFocus && w'.focus.id == w.focus.id)
    ensures TurnOk(w')
  {
    assert forall id | Pending(w', id) :: Pending(w, id);
  }

  lemma NextTurnOk(w: World, s: Step)
    requires TurnOk(w) && Lifecycle(w)
    ensures TurnOk(Next(w, s))
  {
    if s.RunBegin? || s.RunLookup? || s.RunRegister? {
      BeginTurnOk(w, s);
    } else {
      TurnFrame(w, Next(w, s));
    }
  }

  lemma BeginServes(w: World, s: Step, id: string)
    requires TurnOk(w) && Enabled(w, s) && s.RunBegin? && Served(w, id)
    ensures Served(Next(w, s), id)
  {
    var w' := Next(w, s);
    var next := w'.log[|w.log|];
    assert w'.log == w.log + [next];
    GenuineLater(w.log, next, |w.log|, Settled(w', id), id, w.enqueued[id]);
    if id in w.registeredAt {
      ExpectedPrefix(w.log, next, w.registeredAt[id], id, |w.log|);
    }
  }

  /** A lookup settles the broadcast for a client only by finding it gone. */
  lemma LookupServes(w: World, s: Step, id: string)
    requires TurnOk(w) && Enabled(w, s) && s.RunLookup? && Served(w, id)
    ensures Served(Next(w, s), id)
  {
    var w' := Next(w, s);
    if Pending(w', id) == Pending(w, id) {
      ServedFrame(w, w', id);
    }
  }

  /** Putting the current broadcast on the channel of the client in focus settles it. */
  lemma OfferSent(w: World, id: string)
    requires TurnOk(w) && Enabled(w, RunOffer) && id == w.focus.id && Served(w, id)
    requires OfferOf(w.hub.conns[id]) == Sent
    ensures Served(Next(w, RunOffer), id)
  {
    var w' := Next(w, RunOffer);
    var q := Queued(RoomFrame(w.log[|w.log| - 1].msg), |w.log| - 1);
    assert Pending(w, id) && !Pending(w', id);
    assert w'.enqueued[id] == w.enqueued[id] + [q];
    PutConserves(w, w', id, q);
    SentCompletes(w, w', id, q);
    GenuineRoomFrame(w.log, id, w.enqueued[id]);
  }

  lemma PutConserves(w: World, w': World, id: string, q: Queued)
    requires Known(w, id) && Known(w', id) && Conserved(w, id)
    requires w'.enqueued[id] == w.enqueued[id] + [q] && w'.written[id] == w.written[id]
    requires w'.hub.conns[id].send == w.hub.conns[id].send + [q.frame]
    ensures Conserved(w', id)
  {
    FramesAppend(w.enqueued[id], q);
  }

  lemma SentCompletes(w: World, w': World, id: string, q: Queued)
    requires Known(w, id) && Known(w', id) && TurnOk(w) && Complete(w, id)
    requires w.log != [] && Pending(w, id) && !Pending(w', id) && q.pos == |w.log| - 1
    requires id in w.log[|w.log| - 1].snapshot && id in w.registeredAt && w.registeredAt[id] < |w.log|
    requires w'.log == w.log && w'.registeredAt == w.registeredAt && w'.enqueued[id] == w.enqueued[id] + [q]
    requires Receiving(w', id) ==> Receiving(w, id)
    ensures Complete(w', id)
  {
    PositionsAppend(w.enqueued[id], q);
  }

  lemma OfferServes(w: World, id: string)
    requires TurnOk(w) && Enabled(w, RunOffer) && Served(w, id)
    ensures Served(Next(w, RunOffer), id)
  {
    var w' := Next(w, RunOffer);
    if id != w.focus.id || OfferOf(w.hub.conns[id]) == Full {
      ServedFrame(w, w', id);
    } else if OfferOf(w.hub.conns[id]) == Sent {
      OfferSent(w, id);
    }
  }

  lemma CompleteFrame(w: World, w': World, id: string)
    requires Known(w, id) && Known(w', id) && Complete(w, id)
    requires w'.log == w.log && w'.registeredAt == w.registeredAt
    requires Pending(w', id) <==> Pending(w, id)
    requires Positions(w'.enqueued[id]) == Positions(w.enqueued[id])
    requires Receiving(w', id) ==> Receiving(w, id)
    ensures Complete(w', id)
  {
  }

  lemma DirectSent(w: World, w': World, id: string, text: string)
    requires Served(w, id) && w' == Put(w, id, Queued(DirectFrame(text), -1))
    ensures Served(w', id)
  {
    var q := Queued(DirectFrame(text), -1);
    assert w'.enqueued[id] == w.enqueued[id] + [q];
    assert Conserved(w', id) by {
      FramesAppend(w.enqueued[id], q);
    }
    assert Complete(w', id) by {
      PositionsAppend(w.enqueued[id], q);
      CompleteFrame(w, w', id);
    }
    assert Genuine(w'.log, Settled(w', id), id, w'.enqueued[id]) by {
      GenuineDirectFrame(w.log, Settled(w, id), id, w.enqueued[id], text);
    }
  }

  lemma DirectServes(w: World, s: Step, id: string)
    requires Enabled(w, s) && s.SendDirect? && Served(w, id)
    ensures Served(Next(w, s), id)
  {
    var w' := Next(w, s);
    if w' != w {
      if id == s.id {
        DirectSent(w, w', id, s.text);
      } else {
        ServedFrame(w, w', id);
      }
    }
  }

  lemma WriteServes(w: World, s: Step, id: string)
    requires Enabled(w, s) && s.Write? && Served(w, id)
    ensures Served(Next(w, s), id)
  {
    var w' := Next(w, s);
    if id != s.id {
      ServedFrame(w, w', id);
    } else {
      var send := w.hub.conns[id].send;
      assert w.written[id] + send == w.written[id] + [send[0]] + send[1..];
    }
  }

  lemma RegisterServes(w: World, s: Step, id: string)
    requires Lifecycle(w) && Enabled(w, s) && s.RunRegister? && Served(w, id)
    ensures Served(Next(w, s), id)
  {
    if id != s.id {
      ServedFrame(w, Next(w, s), id);
    }
  }

  predicate ClosesOrJoins(s: Step) {
    s.New? || s.Clean? || s.RunEvict? || s.Join? || s.Leave? || s.Drain? || s.Shutdown?
  }

  lemma CloseIsQuiet(w: World, s: Step, id: string)
    requires Enabled(w, s) && ClosesOrJoins(s) && Known(w, id)
    ensures var w' := Next(w, s);
            && Known(w', id) && w'.hub.conns[id].send == w.hub.conns[id].send
            && (Receiving(w', id) ==> Receiving(w, id))
            && w'.log == w.log && w'.todo == w.todo && w'.registeredAt == w.registeredAt
            && w'.enqueued[id] == w.enqueued[id] && w'.written[id] == w.written[id]
  {
  }

  /** Evicting settles the broadcast for a client by taking it out of the index. */
  lemma CloseServes(w: World, s: Step, id: string)
    requires Lifecycle(w) && Enabled(w, s) && ClosesOrJoins(s) && Served(w, id)
    ensures Served(Next(w, s), id)
  {
    CloseIsQuiet(w, s, id);
    var w' := Next(w, s);
    if Pending(w', id) == Pending(w, id) {
      ServedFrame(w, w', id);
    } else {
      assert s.RunEvict? && id == w.focus.id;
      assert !Receiving(w', id);
    }
  }

  lemma NextServes(w: World, s: Step, id: string)
    requires TurnOk(w) && Lifecycle(w) && Served(w, id)
    ensures Served(Next(w, s), id)
  {
    if Enabled(w, s) {
      match s
      case RunBegin(_) => BeginServes(w, s, id);
      case RunLookup(_) => LookupServes(w, s, id);
      case RunOffer => OfferServes(w, id);
      case SendDirect(_, _) => DirectServes(w, s, id);
      case Write(_) => WriteServes(w, s, id);
      case RunRegister(_) => RegisterServes(w, s, id);
      case _ => CloseServes(w, s, id);
    }
  }

  lemma ServedFromTheStart(w: World, s: Step, id: string)
    requires Lifecycle(w) && id !in w.enqueued && id in Next(w, s).enqueued
    ensures Served(Next(w, s), id)
  {
    assert s.New? && s.id == id && id !in w.registeredAt;
    assert Next(w, s).enqueued[id] == [];
  }

  ghost predicate FanOut(w: World) {
    TurnOk(w) && forall id | id in w.enqueued :: Served(w, id)
  }

  lemma NextFanOut(w: World, s: Step)
    requires FanOut(w) && Lifecycle(w)
    ensures FanOut(Next(w, s))
  {
    NextTurnOk(w, s);
    forall id | id in Next(w, s).enqueued ensures Served(Next(w, s), id) {
      if id in w.enqueued {
        NextServes(w, s, id);
      } else {
        ServedFromTheStart(w, s, id);
      }
    }
  }

  lemma {:induction false} RunFanOut(steps: seq<Step>)
    ensures FanOut(Run(steps))
  {
    if steps != [] {
      RunFanOut(steps[..|steps| - 1]);
      RunConsistent(steps[..|steps| - 1]);
      NextFanOut(Run(steps[..|steps| - 1]), steps[|steps| - 1]);
    }
  }

  // ---------- The law ----------

  /** The broadcasts at the given log positions. */
  function At(log: seq<Logged>, positions: seq<int>): seq<BroadcastMessage>
    requires forall k | 0 <= k < |positions| :: 0 <= positions[k] < |log|
  {
    seq(|positions|, k requires 0 <= k < |positions| => log[positions[k]].msg)
  }

  lemma {:induction false} MessagesArePositions(log: seq<Logged>, id: string, queued: seq<Queued>)
    requires forall q | q in queued ::
               if q.pos < 0 then q.frame.DirectFrame? else q.pos < |log| && q.frame == RoomFrame(log[q.pos].msg)
    ensures forall k | 0 <= k < |Positions(queued)| :: 0 <= Positions(queued)[k] < |log|
    ensures Messages(queued) == At(log, Positions(queued))
  {
    if queued != [] {
      MessagesArePositions(log, id, queued[..|queued| - 1]);
    }
  }

  lemma {:induction false} ExpectedHas(log: seq<Logged>, from: nat, id: string, upTo: nat, p: int)
    requires upTo <= |log|
    ensures p in Expected(log, from, id, upTo) <==> from <= p < upTo && id in log[p].snapshot
  {
    if upTo > from {
      ExpectedHas(log, from, id, upTo - 1, p);
    }
  }

  lemma ServedIsExact(w: World, id: string)
    requires FanOut(w) && Consistent(w) && Receiving(w, id)
    ensures Known(w, id) && id in w.registeredAt
    ensures var due := Expected(w.log, w.registeredAt[id], id, Settled(w, id));
            && (forall k | 0 <= k < |due| :: 0 <= due[k] < |w.log|)
            && Messages(w.enqueued[id]) == At(w.log, due)
  {
    assert Served(w, id);
    MessagesArePositions(w.log, id, w.enqueued[id]);
  }

  /** Exact fan-out: a receiving client was sent exactly the settled broadcasts since its
      registration that listed it, in hub order and once each. */
  lemma FanOutIsExact(steps: seq<Step>, id: string)
    requires Receiving(Run(steps), id)
    ensures var w := Run(steps);
            && Known(w, id) && id in w.registeredAt
            && var due := Expected(w.log, w.registeredAt[id], id, Settled(w, id));
            && (forall k | 0 <= k < |due| :: 0 <= due[k] < |w.log|)
            && Messages(w.enqueued[id]) == At(w.log, due)
  {
    RunFanOut(steps);
    RunConsistent(steps);
    ServedIsExact(Run(steps), id);
  }

  /** Between broadcasts nothing is unsettled: a receiving client misses no broadcast that listed it. */
  lemma NoListedGap(steps: seq<Step>, id: string, p: nat)
    requires var w := Run(steps);
             && Idle(w) && Receiving(w, id)
             && p < |w.log| && id in w.log[p].snapshot && id in w.registeredAt && w.registeredAt[id] <= p
    ensures var w := Run(steps); Known(w, id) && p in Positions(w.enqueued[id])
  {
    RunFanOut(steps);
    RunConsistent(steps);
    var w := Run(steps);
    assert Served(w, id);
    ExpectedHas(w.log, w.registeredAt[id], id, |w.log|, p);
  }

  lemma StepKeepsHistory(w: World, s: Step)
    ensures var w' := Next(w, s);
            && |w.log| <= |w'.log| && w'.log[..|w.log|] == w.log
            && (forall id | id in w.registeredAt :: id in w'.registeredAt && w'.registeredAt[id] == w.registeredAt[id])
            && (forall id | id in w'.registeredAt && id !in w.registeredAt :: w'.registeredAt[id] == |w.log|)
  {
  }

  /** From step `n` on the log only grows, and a registration keeps its place. */
  lemma {:induction false} HistoryStays(steps: seq<Step>, n: nat)
    requires n <= |steps|
    ensures var w, w' := Run(steps[..n]), Run(steps);
            && |w.log| <= |w'.log| && w'.log[..|w.log|] == w.log
            && (forall id | id in w.registeredAt :: id in w'.registeredAt && w'.registeredAt[id] == w.registeredAt[id])
            && (forall id | id in w'.registeredAt && id !in w.registeredAt :: w'.registeredAt[id] >= |w.log|)
    decreases |steps|
  {
    if n == |steps| {
      assert steps[..n] == steps;
    } else {
      var before := steps[..|steps| - 1];
      assert before[..n] == steps[..n];
      HistoryStays(before, n);
      StepKeepsHistory(Run(before), steps[|steps| - 1]);
    }
  }

  lemma {:induction false} ClosedStays(steps: seq<Step>, n: nat, id: string)
    requires n <= |steps| && id in Run(steps[..n]).hub.conns
    ensures id in Run(steps).hub.conns
    ensures Run(steps[..n]).hub.conns[id].closed ==> Run(steps).hub.conns[id].closed
    decreases |steps|
  {
    if n == |steps| {
      assert steps[..n] == steps;
    } else {
      var before := steps[..|steps| - 1];
      assert before[..n] == steps[..n];
      ClosedStays(before, n, id);
      StepKeepsUser(Run(before), steps[|steps| - 1], id);
    }
  }

  /** Step `b` has the Run goroutine take a broadcast. */
  predicate BeginsAt(steps: seq<Step>, b: nat) {
    b < |steps| && steps[b].RunBegin? && Idle(Run(steps[..b]))
  }

  /** The place of a broadcast in the log; clients that register later come after it. */
  lemma HistoryOfBegin(steps: seq<Step>, b: nat)
    requires BeginsAt(steps, b)
    ensures var w, w' := Run(steps[..b]), Run(steps);
            && |w.log| < |w'.log| && w'.log[|w.log|] == Logged(steps[b].msg, Snapshot(w.hub, steps[b].msg.roomID))
            && (forall id | id in w'.registeredAt && id !in w.registeredAt :: w'.registeredAt[id] > |w.log|)
  {
    var w := Run(steps[..b]);
    assert steps[..b + 1][..b] == steps[..b];
    assert Run(steps[..b + 1]) == Next(w, steps[b]);
    HistoryStays(steps, b + 1);
    assert Run(steps).log[..|w.log| + 1][|w.log|] == Run(steps).log[|w.log|];
  }

  /** What that place says, and whom it lists. */
  lemma BegunIsLogged(steps: seq<Step>, b: nat, id: string)
    requires BeginsAt(steps, b)
    requires id in Run(steps[..b]).hub.conns && !Run(steps[..b]).hub.conns[id].closed
    ensures var w, w' := Run(steps[..b]), Run(steps); var p := |w.log|;
            && p < |w'.log| && w'.log[p].msg == steps[b].msg
            && (id in w'.log[p].snapshot <==> steps[b].msg.roomID in w.hub.conns[id].rooms)
  {
    var w := Run(steps[..b]);
    BroadcastListsSubscribers(steps[..b], steps[b].msg, id);
    HistoryOfBegin(steps, b);
  }

  /** No silent gap: between broadcasts a receiving client has on its channel exactly those broadcasts
      for which it was registered and subscribed to the room when they were taken. */
  lemma NoSilentGap(steps: seq<Step>, b: nat, id: string)
    requires BeginsAt(steps, b) && Idle(Run(steps)) && Receiving(Run(steps), id)
    ensures var w, w' := Run(steps[..b]), Run(steps); var p := |w.log|;
            && p < |w'.log| && w'.log[p].msg == steps[b].msg && id in w'.enqueued
            && (p in Positions(w'.enqueued[id]) <==>
                  id in w.registeredAt && id in w.hub.conns && steps[b].msg.roomID in w.hub.conns[id].rooms)
  {
    var w, w' := Run(steps[..b]), Run(steps);
    RunFanOut(steps);
    RunFanOut(steps[..b]);
    RunConsistent(steps);
    RunConsistent(steps[..b]);
    HistoryStays(steps, b);
    HistoryOfBegin(steps, b);
    assert Served(w', id);
    ExpectedHas(w'.log, w'.registeredAt[id], id, |w'.log|, |w.log|);
    if id in w.registeredAt {
      ClosedStays(steps, b, id);
      BegunIsLogged(steps, b, id);
    }
  }

  /** Whatever its state, a client never gets a broadcast out of order, twice, or unlisted. */
  lemma NeverForeignNorRepeated(steps: seq<Step>, id: string)
    requires id in Run(steps).enqueued
    ensures var w := Run(steps); Genuine(w.log, |w.log|, id, w.enqueued[id])
  {
    RunFanOut(steps);
    assert Served(Run(steps), id);
  }

  /** No frame is lost or invented between channel and socket, and the channel keeps to its size. */
  lemma ChannelsConserve(steps: seq<Step>, id: string)
    requires id in Run(steps).hub.conns
    ensures var w := Run(steps);
            && Known(w, id)
            && Frames(w.enqueued[id]) == w.written[id] + w.hub.conns[id].send
            && |w.hub.conns[id].send| <= SEND_BUFFER
  {
    RunFanOut(steps);
    RunConsistent(steps);
    assert Served(Run(steps), id);
  }

  lemma FocusIsKnown(steps: seq<Step>)
    requires Run(steps).focus != NoFocus
    ensures var w := Run(steps);
            Known(w, w.focus.id) && w.log != [] && |w.hub.conns[w.focus.id].send| <= SEND_BUFFER
  {
    RunFanOut(steps);
    RunConsistent(steps);
  }

  lemma OfferStep(w: World)
    requires w.focus.LookedUp? && Known(w, w.focus.id) && w.log != [] && |w.hub.conns[w.focus.id].send| <= SEND_BUFFER
    ensures OfferDone(w, Next(w, RunOffer), w.focus.id)
  {
  }

  predicate OfferDone(w: World, w': World, id: string)
    requires Known(w, id) && w.log != []
  {
    var c, f := w.hub.conns[id], RoomFrame(w.log[|w.log| - 1].msg);
    if c.closed || c.closing then w' == w.(focus := NoFocus)
    else if |c.send| == 256 then w' == w.(focus := FoundFull(id))
    else
      && Known(w', id) && w'.focus == NoFocus && w'.hub.conns[id] == c.(send := c.send + [f])
      && w'.enqueued[id] == w.enqueued[id] + [Queued(f, |w.log| - 1)]
  }

  /** The three outcomes of an offer: a closed client gets nothing, one with 256 frames waiting is found
      full, and any other gets the broadcast. */
  lemma OfferOutcome(steps: seq<Step>)
    requires Run(steps).focus.LookedUp?
    ensures var w := Run(steps);
            Known(w, w.focus.id) && w.log != [] && OfferDone(w, Next(w, RunOffer), w.focus.id)
  {
    FocusIsKnown(steps);
    OfferStep(Run(steps));
  }

  /** A lookup finds exactly the registered clients. */
  lemma LookupOutcome(w: World, id: string)
    requires Enabled(w, RunLookup(id))
    ensures Next(w, RunLookup(id)).focus == if id in w.hub.clients then LookedUp(id) else NoFocus
    ensures Next(w, RunLookup(id)).todo == w.todo - {id} && Next(w, RunLookup(id)).hub == w.hub
  {
  }

  predicate DirectDone(w: World, w': World, id: string, text: string)
    requires Known(w, id)
  {
    var c := w.hub.conns[id];
    Known(w', id) &&
    if c.closing || |c.send| == 256 then w' == w
    else w'.hub.conns[id] == c.(send := c.send + [DirectFrame(text)])
  }

  lemma DirectStep(w: World, id: string, text: string)
    requires Known(w, id) && |w.hub.conns[id].send| <= SEND_BUFFER
    ensures DirectDone(w, Next(w, SendDirect(id, text)), id, text)
  {
  }

  /** A direct frame is dropped exactly when the channel is closing or 256 frames wait. */
  lemma DirectOutcome(steps: seq<Step>, id: string, text: string)
    requires id in Run(steps).hub.conns
    ensures Known(Run(steps), id) && DirectDone(Run(steps), Next(Run(steps), SendDirect(id, text)), id, text)
  {
    RunConsistent(steps);
    DirectStep(Run(steps), id, text);
  }

  lemma EvictedIsGone(w: World)
    requires Consistent(w) && TurnOk(w) && w.focus.FoundFull?
    ensures Known(w, w.focus.id)
    ensures Gone(Next(w, RunEvict).hub, w.focus.id) && Next(w, RunEvict).focus == NoFocus
  {
    NextConsistent(w, RunEvict);
  }

  lemma OnlyEvictionMoves(w: World, s: Step)
    requires w.focus.FoundFull?
    ensures s.RunRegister? || s.RunBegin? || s.RunLookup? || s.RunOffer? ==> Next(w, s) == w
    ensures !s.RunEvict? ==> Next(w, s).focus == w.focus
  {
  }

  /** A full queue leads to eviction: the Run goroutine can do nothing else, whatever steps of other
      goroutines come first, and after it the client is in no index. */
  lemma FullQueueLeadsToEviction(steps: seq<Step>, s: Step)
    requires Run(steps).focus.FoundFull?
    ensures var w := Run(steps);
            && Known(w, w.focus.id)
            && (s.RunRegister? || s.RunBegin? || s.RunLookup? || s.RunOffer? ==> Next(w, s) == w)
            && (!s.RunEvict? ==> Next(w, s).focus == w.focus)
            && (s.RunEvict? ==> Gone(Next(w, s).hub, w.focus.id) && Next(w, s).focus == NoFocus)
  {
    RunFanOut(steps);
    RunConsistent(steps);
    EvictedIsGone(Run(steps));
    OnlyEvictionMoves(Run(steps), s);
  }

  // ---------- Serving without interruption ----------

  /** The Run goroutine serves `ids` with no other step in between. */
  function ServeSteps(w: World, ids: seq<string>): World {
    if ids == [] then w
    else
      Next(Next(Next(ServeSteps(w, ids[..|ids| - 1]), RunLookup(ids[|ids| - 1])), RunOffer), RunEvict)
  }

  lemma OfferOnce(w: World, id: string)
    requires Lifecycle(w) && Agree(w.hub) && w.log != [] && w.focus == LookedUp(id) && id in w.hub.clients
    ensures var w' := Next(Next(w, RunOffer), RunEvict);
            && w'.hub == Serve(w.hub, id, RoomFrame(w.log[|w.log| - 1].msg))
            && w'.focus == NoFocus && w'.todo == w.todo && w'.log == w.log
  {
  }

  lemma ServeOneStep(w: World, id: string)
    requires Lifecycle(w) && Agree(w.hub) && w.log != [] && w.focus == NoFocus && id in w.todo
    ensures var w' := Next(Next(Next(w, RunLookup(id)), RunOffer), RunEvict);
            && w'.hub == Serve(w.hub, id, RoomFrame(w.log[|w.log| - 1].msg))
            && w'.focus == NoFocus && w'.todo == w.todo - {id} && w'.log == w.log
  {
    var w1 := Next(w, RunLookup(id));
    var w2 := Next(w1, RunOffer);
    assert w1 == w.(todo := w.todo - {id}, focus := if id in w.hub.clients then LookedUp(id) else NoFocus);
    if id in w.hub.clients {
      OfferOnce(w1, id);
    } else {
      assert w2 == w1 && Next(w2, RunEvict) == w2;
    }
  }

  /** The uninterrupted broadcast that one call of BroadcastMessage makes is one of the interleavings. */
  lemma {:induction false} UninterruptedIsARun(w: World, ids: seq<string>)
    requires Consistent(w) && w.log != [] && w.focus == NoFocus
    requires forall i, j | 0 <= i < j < |ids| :: ids[i] != ids[j]
    requires forall id | id in ids :: id in w.todo
    ensures var w' := ServeSteps(w, ids);
            && w'.hub == ServeAll(w.hub, ids, RoomFrame(w.log[|w.log| - 1].msg))
            && w'.focus == NoFocus && w'.log == w.log && Consistent(w')
            && (forall id :: id in w'.todo <==> id in w.todo && id !in ids)
  {
    if ids != [] {
      var before, id := ids[..|ids| - 1], ids[|ids| - 1];
      UninterruptedIsARun(w, before);
      var m := ServeSteps(w, before);
      assert id in m.todo;
      ServeOneStep(m, id);
      NextConsistent(m, RunLookup(id));
      NextConsistent(Next(m, RunLookup(id)), RunOffer);
      NextConsistent(Next(Next(m, RunLookup(id)), RunOffer), RunEvict);
    }
  }
}
