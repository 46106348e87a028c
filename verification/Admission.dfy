// The per-address connection counter of handleWebSocket and of ReadPump's exit
// (internal/server/server.go): atomic adds that interleave between requests.
module Admission {
  import opened Prelude

  /** How far one request from the address has come. */
  datatype Phase =
    | Counted(over: bool)  // Add(1) done; the value it returned was over the limit, or not
    | Admitted             // past the limit check
    | Connected            // upgraded, the pumps run
    | Refused              // sent away, counter given back
    | Gone                 // ReadPump has exited

  /** The ways handleWebSocket can end after the limit check. */
  datatype Outcome = NoToken | BadToken | RateLimited | UpgradeFailed | Upgraded

  datatype Address = Address(counter: int, requests: map<int, Phase>)

  datatype Step =
    | Arrive(request: int)                    // counter.Add(1)
    | TurnAway(request: int)                  // counter.Add(-1) after the limit check failed
    | PassCheck(request: int)
    | Finish(request: int, outcome: Outcome)  // the rest of handleWebSocket
    | Exit(request: int)                      // the deferred function of ReadPump

  predicate At(a: Address, request: int, phase: Phase) {
    request in a.requests && a.requests[request] == phase
  }

  function Moved(a: Address, request: int, phase: Phase, delta: int): Address {
    Address(a.counter + delta, a.requests[request := phase])
  }

  function Next(a: Address, limit: int, s: Step): Address {
    match s
    case Arrive(r) => if r in a.requests then a else Moved(a, r, Counted(a.counter + 1 > limit), 1)
    case TurnAway(r) => if At(a, r, Counted(true)) then Moved(a, r, Refused, -1) else a
    case PassCheck(r) => if At(a, r, Counted(false)) then Moved(a, r, Admitted, 0) else a
    case Finish(r, outcome) =>
      if !At(a, r, Admitted) then a
      else if outcome == Upgraded then Moved(a, r, Connected, 0) else Moved(a, r, Refused, -1)
    case Exit(r) => if At(a, r, Connected) then Moved(a, r, Gone, -1) else a
  }

  function Run(limit: int, steps: seq<Step>): Address {
    if steps == [] then Address(0, map[])
    else Next(Run(limit, steps[..|steps| - 1]), limit, steps[|steps| - 1])
  }

  // ---------- The counter ----------

  predicate Holds(phase: Phase) { phase.Counted? || phase.Admitted? || phase.Connected? }

  predicate IsInside(phase: Phase) { phase == Counted(false) || phase.Admitted? || phase.Connected? }

  /** Requests that have incremented and not yet decremented. */
  function Holding(a: Address): set<int> {
    set r | r in a.requests && Holds(a.requests[r])
  }

  /** Requests that the limit check let through and that are still there. */
  function Inside(a: Address): set<int> {
    set r | r in a.requests && IsInside(a.requests[r])
  }

  function AtMost(limit: int): nat { if limit < 0 then 0 else limit }

  ghost predicate Exact(a: Address, limit: int) {
    a.counter == |Holding(a)| && |Inside(a)| <= AtMost(limit)
  }

  function One(b: bool): nat { if b then 1 else 0 }

  lemma OneChanged(before: set<int>, after: set<int>, r: int)
    requires forall x | x != r :: x in before <==> x in after
    ensures |after| == |before| - One(r in before) + One(r in after)
  {
    forall x ensures x in before - {r} <==> x in after - {r} {}
    assert before - {r} == after - {r};
    assert |before - {r}| == |before| - One(r in before);
    assert |after - {r}| == |after| - One(r in after);
  }

  lemma MovedSizes(a: Address, r: int, phase: Phase, delta: int)
    ensures var a' := Moved(a, r, phase, delta);
            && |Holding(a')| == |Holding(a)| - One(r in Holding(a)) + One(Holds(phase))
            && |Inside(a')| == |Inside(a)| - One(r in Inside(a)) + One(IsInside(phase))
  {
    var a' := Moved(a, r, phase, delta);
    OneChanged(Holding(a), Holding(a'), r);
    OneChanged(Inside(a), Inside(a'), r);
  }

  lemma NextExact(a: Address, limit: int, s: Step)
    requires Exact(a, limit)
    ensures Exact(Next(a, limit, s), limit)
  {
    var r := s.request;
    match s
    case Arrive(_) =>
      forall x | x in Inside(a) ensures x in Holding(a) {}
      SubsetSize(Inside(a), Holding(a));
      MovedSizes(a, r, Counted(a.counter + 1 > limit), 1);
    case TurnAway(_) => MovedSizes(a, r, Refused, -1);
    case PassCheck(_) => MovedSizes(a, r, Admitted, 0);
    case Finish(_, outcome) =>
      MovedSizes(a, r, Connected, 0);
      MovedSizes(a, r, Refused, -1);
    case Exit(_) => MovedSizes(a, r, Gone, -1);
  }

  /** In every interleaving the counter is the number of requests that hold it, never negative, and
      no more requests than the limit are ever inside. */
  lemma {:induction false} CounterIsExact(limit: int, steps: seq<Step>)
    ensures var a := Run(limit, steps);
            && a.counter == |Holding(a)| && a.counter >= 0
            && |Inside(a)| <= AtMost(limit)
  {
    if steps == [] {
      assert Holding(Run(limit, steps)) == {} && Inside(Run(limit, steps)) == {};
    } else {
      CounterIsExact(limit, steps[..|steps| - 1]);
      NextExact(Run(limit, steps[..|steps| - 1]), limit, steps[|steps| - 1]);
    }
  }

  /** A request is over the limit exactly when that many hold the counter already as it arrives. */
  lemma TurnedAwayIffFull(limit: int, steps: seq<Step>, request: int)
    requires request !in Run(limit, steps).requests
    ensures var a := Run(limit, steps); var a' := Next(a, limit, Arrive(request));
            && request in a'.requests && a'.requests[request] == Counted(|Holding(a)| >= limit)
            && Holding(a') == Holding(a) + {request}
  {
    CounterIsExact(limit, steps);
  }

  /** The handler with nothing else running is a run of these steps: admitted exactly below the limit,
      and one more on the counter exactly for a connection that was made. */
  lemma HandlerIsARun(a: Address, limit: int, r: int, outcome: Outcome)
    requires r !in a.requests
    ensures var a1 := Next(a, limit, Arrive(r));
            var a2 := Next(Next(a1, limit, TurnAway(r)), limit, PassCheck(r));
            var a3 := Next(a2, limit, Finish(r, outcome));
            && (a.counter < limit <==> a2.requests[r] == Admitted)
            && (a.counter < limit && outcome == Upgraded <==> a3.requests[r] == Connected)
            && a3.counter == a.counter + (if a.counter < limit && outcome == Upgraded then 1 else 0)
            && Next(a3, limit, Exit(r)).counter == a.counter
  {
  }

  /** Adds minus subtractions that a request has made so far in a run. */
  function NetAdds(limit: int, steps: seq<Step>, request: int): int {
    if steps == [] then 0
    else
      var before, s := steps[..|steps| - 1], steps[|steps| - 1];
      NetAdds(limit, before, request) +
      (if s.request == request then Run(limit, steps).counter - Run(limit, before).counter else 0)
  }

  /** Each request gives back exactly what it took: one add while it is there, none once it is over. */
  lemma {:induction false} EachExitGivesBackOnce(limit: int, steps: seq<Step>, request: int)
    ensures NetAdds(limit, steps, request) == if request in Holding(Run(limit, steps)) then 1 else 0
  {
    if steps != [] {
      EachExitGivesBackOnce(limit, steps[..|steps| - 1], request);
    }
  }

  // ---------- The handler ----------

  class IPCounter {
    var value: int

    constructor ()
      ensures value == 0
    {
      value := 0;
    }

    method Add(delta: int) returns (v: int)
      modifies this
      ensures value == old(value) + delta && v == value
    {
      value := value + delta;
      v := value;
    }
  }

  /** handleWebSocket as far as the counter goes, nothing else running: `token` and `user` stand for
      what the request carries, the flags for what the limiter and the upgrade answer. */
  method HandleWebSocket(counter: IPCounter, maxPerIP: int, token: string, user: Option<string>,
                         allowed: bool, upgraded: bool)
    returns (admitted: bool, connected: bool)
    modifies counter
    ensures maxPerIP <= 0 ==> admitted
    ensures maxPerIP > 0 ==> (admitted <==> old(counter.value) < maxPerIP)
    ensures connected <==> admitted && token != "" && user.Some? && allowed && upgraded
    ensures counter.value == old(counter.value) + if connected && maxPerIP > 0 then 1 else 0
  {
    admitted, connected := true, false;
    var counted := false;
    if maxPerIP > 0 {
      var v := counter.Add(1);
      if v > maxPerIP {
        v := counter.Add(-1);
        admitted := false;
        return;
      }
      counted := true;
    }
    if token == "" || user.None? || !allowed || !upgraded {
      if counted { var _ := counter.Add(-1); }
      return;
    }
    connected := true;
  }

  /** The exit of ReadPump. */
  method ReadPumpExit(counter: IPCounter, maxPerIP: int)
    modifies counter
    ensures counter.value == old(counter.value) - if maxPerIP > 0 then 1 else 0
  {
    if maxPerIP > 0 { var _ := counter.Add(-1); }
  }
}
