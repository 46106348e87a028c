// Callers of one generator that interleave. The mutex is released while a caller sleeps in
// either wait loop, so what is atomic is one critical section: from one clock reading under
// the lock to the next release.
module SnowflakeCallers {
  import opened Prelude
  import opened Snowflake

  datatype Machine = Machine(
    gen: Gen,
    behind: set<nat>,   // callers asleep because the clock was before lastTime
    spent: set<nat>,    // callers asleep in waitNextMillisLocked, the sequence already reset
    out: seq<Gen>,      // stamps of the ids made so far, in lock order
    dry: bool)          // lastTime has used up its 4096 sequence values

  /** A caller takes the lock and reads the clock once. */
  datatype Section = Section(caller: nat, now: int)

  function Start(): Machine { Machine(Gen(0, 0), {}, {}, [], false) }

  function Emit(m: Machine, gen: Gen, dry: bool): Machine {
    m.(gen := gen, out := m.out + [gen], dry := dry)
  }

  function Enter(m: Machine, s: Section): Machine {
    if s.now < m.gen.lastTime then
      m.(behind := m.behind + {s.caller})
    else if s.now > m.gen.lastTime then
      Emit(m.(behind := m.behind - {s.caller}), Gen(0, s.now), false)
    else
      var next := (m.gen.sequence + 1) % (SEQUENCE_MASK + 1);
      if next != 0 then
        Emit(m.(behind := m.behind - {s.caller}), Gen(next, s.now), m.dry)
      else
        m.(gen := Gen(0, s.now), behind := m.behind - {s.caller}, spent := m.spent + {s.caller}, dry := true)
  }

  /** A caller in waitNextMillisLocked leaves with whatever sequence the generator then holds. */
  function Resume(m: Machine, s: Section): Machine {
    if s.now > m.gen.lastTime then
      Emit(m.(spent := m.spent - {s.caller}), Gen(m.gen.sequence, s.now), false)
    else
      m
  }

  function Step(m: Machine, s: Section): Machine {
    if s.caller in m.spent then Resume(m, s) else Enter(m, s)
  }

  function Run(sections: seq<Section>): Machine {
    if sections == [] then Start()
    else Step(Run(sections[..|sections| - 1]), sections[|sections| - 1])
  }

  /** A caller reads the very millisecond that another caller is waiting to see the end of. */
  predicate Reuses(m: Machine, s: Section) {
    m.dry && s.caller !in m.spent && s.now == m.gen.lastTime
  }

  predicate EverReuses(sections: seq<Section>) {
    sections != [] &&
    var before := sections[..|sections| - 1];
    EverReuses(before) || Reuses(Run(before), sections[|sections| - 1])
  }

  predicate EverExhausts(sections: seq<Section>) {
    exists n | 0 <= n <= |sections| :: Run(sections[..n]).dry
  }

  ghost predicate Sound(m: Machine) {
    && ValidGen(m.gen)
    && KeysIncrease(m.out)
    && (m.out == [] ==> m.gen == Gen(0, 0) && !m.dry)
    && (m.dry ==> m.gen.sequence == 0)
    && (m.out != [] ==>
          m.out[|m.out| - 1] == if m.dry then Gen(SEQUENCE_MASK, m.gen.lastTime) else m.gen)
  }

  lemma EmitInOrder(out: seq<Gen>, g: Gen)
    requires KeysIncrease(out)
    ensures KeysIncrease(out + [g]) <==> out == [] || Key(out[|out| - 1]) < Key(g)
  {
    if out != [] && Key(out[|out| - 1]) < Key(g) {
      forall i, j | 0 <= i < j < |out + [g]| ensures Key((out + [g])[i]) < Key((out + [g])[j]) {
        if j == |out| && i < |out| - 1 {
          assert Key(out[i]) < Key(out[|out| - 1]);
        }
      }
    } else if out != [] {
      var longer := out + [g];
      assert longer[|out| - 1] == out[|out| - 1] && longer[|out|] == g;
    }
  }

  lemma StepSound(m: Machine, s: Section)
    requires Sound(m)
    ensures Reuses(m, s) ==> !KeysIncrease(Step(m, s).out)
    ensures !Reuses(m, s) ==> Sound(Step(m, s))
  {
    var m' := Step(m, s);
    if |m'.out| > |m.out| {
      EmitInOrder(m.out, m'.gen);
    }
  }

  lemma OrderLostForGood(m: Machine, s: Section)
    requires !KeysIncrease(m.out)
    ensures !KeysIncrease(Step(m, s).out)
  {
    var i, j :| 0 <= i < j < |m.out| && Key(m.out[i]) >= Key(m.out[j]);
    var out' := Step(m, s).out;
    assert out'[i] == m.out[i] && out'[j] == m.out[j];
  }

  lemma {:induction false} RunSound(sections: seq<Section>)
    ensures EverReuses(sections) ==> !KeysIncrease(Run(sections).out)
    ensures !EverReuses(sections) ==> Sound(Run(sections))
  {
    if sections != [] {
      var before := sections[..|sections| - 1];
      RunSound(before);
      if EverReuses(before) {
        OrderLostForGood(Run(before), sections[|sections| - 1]);
      } else {
        StepSound(Run(before), sections[|sections| - 1]);
      }
    }
  }

  /** In every interleaving, stamps increase in lock order exactly when nobody reuses a spent millisecond. */
  lemma OrderIffNoReuse(sections: seq<Section>)
    ensures KeysIncrease(Run(sections).out) <==> !EverReuses(sections)
  {
    RunSound(sections);
  }

  lemma IdsOutOfOrder(node: int, out: seq<Gen>)
    requires IsNode(node) && !KeysIncrease(out)
    requires forall k | 0 <= k < |out| :: ValidGen(out[k]) && out[k].lastTime < EPOCH + HORIZON
    ensures !StrictlyIncreasing(Ids(node, out))
  {
    var i, j :| 0 <= i < j < |out| && Key(out[i]) >= Key(out[j]);
    IdOrder(node, out[i], out[j]);
    assert Ids(node, out)[i] >= Ids(node, out)[j];
  }

  /** The same for the ids themselves, for clocks below the 2^41 horizon. */
  lemma IdsInLockOrder(node: int, sections: seq<Section>)
    requires IsNode(node)
    requires forall k | 0 <= k < |sections| :: sections[k].now < EPOCH + HORIZON
    ensures StrictlyIncreasing(Ids(node, Run(sections).out)) <==> !EverReuses(sections)
  {
    RunSound(sections);
    TimesBelow(sections, EPOCH + HORIZON);
    var out := Run(sections).out;
    if EverReuses(sections) {
      IdsOutOfOrder(node, out);
    } else {
      IdsInOrder(node, out);
    }
  }

  lemma {:induction false} TimesBelow(sections: seq<Section>, bound: int)
    requires bound > 0
    requires forall k | 0 <= k < |sections| :: sections[k].now < bound
    ensures var m := Run(sections);
            && ValidGen(m.gen) && m.gen.lastTime < bound
            && (forall k | 0 <= k < |m.out| :: ValidGen(m.out[k]) && m.out[k].lastTime < bound)
  {
    if sections != [] {
      TimesBelow(sections[..|sections| - 1], bound);
    }
  }

  lemma {:induction false} ReuseNeedsExhaustion(sections: seq<Section>)
    requires EverReuses(sections)
    ensures EverExhausts(sections)
  {
    var before := sections[..|sections| - 1];
    if EverReuses(before) {
      ReuseNeedsExhaustion(before);
      var n :| 0 <= n <= |before| && Run(before[..n]).dry;
      assert sections[..n] == before[..n];
    } else {
      assert Run(sections[..|before|]).dry;
    }
  }

  /** A run in which no millisecond uses up its sequence keeps the order. */
  lemma OrderWithoutExhaustion(sections: seq<Section>)
    requires !EverExhausts(sections)
    ensures KeysIncrease(Run(sections).out)
  {
    if EverReuses(sections) {
      ReuseNeedsExhaustion(sections);
    }
    RunSound(sections);
  }

  // ---------- A run that repeats an id ----------

  function Burst(n: nat): seq<Section> {
    if n == 0 then [] else Burst(n - 1) + [Section(0, 1)]
  }

  predicate MidBurst(m: Machine, n: nat) {
    m.gen == Gen(n - 1, 1) && m.spent == {} && !m.dry && |m.out| == n &&
    (n > 0 ==> m.out[0] == Gen(0, 1)) && (n > 1 ==> m.out[1] == Gen(1, 1))
  }

  lemma BurstStep(m: Machine, n: nat)
    requires 1 <= n < SEQUENCE_MASK + 1 && MidBurst(m, n)
    ensures MidBurst(Step(m, Section(0, 1)), n + 1)
  {}

  lemma {:induction false} BurstRun(n: nat)
    requires 1 <= n <= SEQUENCE_MASK + 1
    ensures MidBurst(Run(Burst(n)), n)
  {
    var before := Burst(n - 1);
    assert Burst(n)[..|Burst(n)| - 1] == before;
    assert Run(Burst(n)) == Step(Run(before), Section(0, 1));
    if n > 1 {
      BurstRun(n - 1);
      BurstStep(Run(before), n - 1);
    } else {
      assert before == [];
    }
  }

  lemma BurstThenReuse(full: seq<Section>)
    requires var m := Run(full);
             m.gen == Gen(SEQUENCE_MASK, 1) && m.spent == {} && |m.out| >= 2 && m.out[1] == Gen(1, 1)
    ensures var out := Run(full + [Section(1, 1), Section(2, 1)]).out;
            |out| == |Run(full).out| + 1 && out[1] == Gen(1, 1) && out[|out| - 1] == Gen(1, 1)
  {
    var a, b := full + [Section(1, 1)], full + [Section(1, 1), Section(2, 1)];
    assert a[..|a| - 1] == full && b[..|b| - 1] == a;
    assert Run(a) == Step(Run(full), Section(1, 1));
    assert Run(b) == Step(Run(a), Section(2, 1));
  }

  /** 4096 calls in one millisecond, one caller waiting for the next, and another call: two ids agree. */
  lemma ExhaustionRepeatsAStamp()
    ensures exists sections ::
              var out := Run(sections).out;
              exists i, j | 0 <= i < j < |out| :: out[i] == out[j]
  {
    var full := Burst(SEQUENCE_MASK + 1);
    BurstRun(SEQUENCE_MASK + 1);
    BurstThenReuse(full);
    var out := Run(full + [Section(1, 1), Section(2, 1)]).out;
    assert out[1] == out[|out| - 1];
  }

  // ---------- A caller with the lock to itself ----------

  /** Caller `c` retries with each reading from `from` on until it makes an id. */
  function Alone(m: Machine, c: nat, clock: seq<int>, from: nat): Machine
    requires from <= |clock|
    decreases |clock| - from
  {
    if from == |clock| then m
    else
      var m' := Step(m, Section(c, clock[from]));
      if |m'.out| > |m.out| then m' else Alone(m', c, clock, from + 1)
  }

  lemma {:induction false} AloneSpent(m: Machine, c: nat, clock: seq<int>, from: nat)
    requires from <= |clock| && c in m.spent
    ensures var j := FirstReading(clock, from, m.gen.lastTime + 1);
            Alone(m, c, clock, from) ==
            if j == |clock| then m else Step(m, Section(c, clock[j]))
    decreases |clock| - from
  {
    if from < |clock| && clock[from] <= m.gen.lastTime {
      AloneSpent(m, c, clock, from + 1);
    }
  }

  /** Sections of one undisturbed caller make exactly the uncontended call of Generate. */
  lemma {:induction false} AloneIsSerial(m: Machine, c: nat, clock: seq<int>, from: nat)
    requires from <= |clock| && ValidGen(m.gen) && c !in m.spent
    requires from == FirstReading(clock, 0, m.gen.lastTime) ||
             (from < FirstReading(clock, 0, m.gen.lastTime))
    ensures Alone(m, c, clock, from).gen == DrawWith(m.gen, clock).gen
    ensures DrawWith(m.gen, clock).Drawn? <==> |Alone(m, c, clock, from).out| == |m.out| + 1
    ensures DrawWith(m.gen, clock).Waiting? <==> Alone(m, c, clock, from).out == m.out
    decreases |clock| - from
  {
    var i := FirstReading(clock, 0, m.gen.lastTime);
    if from < i {
      AloneIsSerial(m.(behind := m.behind + {c}), c, clock, from + 1);
    } else if i < |clock| {
      var m' := Step(m, Section(c, clock[i]));
      if m'.out == m.out {
        AloneSpent(m', c, clock, i + 1);
      }
    }
  }
}
