// The id generator of pkg/snowflake/snowflake.go: bit packing in a 64-bit word, and Generate as
// one caller with the lock to itself sees it.
module Snowflake {
  import opened Prelude

  // Milliseconds of 2021-01-01, the generator's own epoch.
  const EPOCH: int := 1609459200000
  const MAX_NODE_ID: int := 1023
  const SEQUENCE_MASK: int := 4095
  // 2^41: the number of millisecond offsets the 41 timestamp bits can hold.
  const HORIZON: int := 2199023255552
  const TIMESTAMP_SHIFT: nat := 22
  const NODE_ID_SHIFT: nat := 12

  // ---------- Words of 64 bits ----------

  function Pow2(k: nat): (p: int)
    ensures p >= 1
  {
    if k == 0 then 1 else 2 * Pow2(k - 1)
  }

  /** The signed 64-bit word that keeps the low 64 bits of `x`. */
  function Wrap64(x: int): (w: int)
    ensures -0x8000_0000_0000_0000 <= w < 0x8000_0000_0000_0000
  {
    (x + 0x8000_0000_0000_0000) % 0x1_0000_0000_0000_0000 - 0x8000_0000_0000_0000
  }

  function ShiftLeft(x: int, k: nat): int {
    Wrap64(x * Pow2(k))
  }

  /** Bitwise or in two's complement. */
  function BitOr(a: int, b: int): int
    decreases Magnitude(a) + Magnitude(b)
  {
    if Magnitude(a) == 0 && Magnitude(b) == 0 then
      if a == -1 || b == -1 then -1 else 0
    else
      2 * BitOr(a / 2, b / 2) + (if a % 2 == 1 || b % 2 == 1 then 1 else 0)
  }

  /** How far `a` is from a word whose bits are all its sign. */
  function Magnitude(a: int): nat {
    if a >= 0 then a else -1 - a
  }

  lemma {:induction false} BitOrZero(a: int)
    ensures BitOr(a, 0) == a
    decreases Magnitude(a)
  {
    if Magnitude(a) != 0 {
      BitOrZero(a / 2);
    }
  }

  /** Or-ing below the lowest set bit is addition. */
  lemma {:induction false} BitOrDisjoint(q: int, b: int, k: nat)
    requires 0 <= b < Pow2(k)
    ensures BitOr(q * Pow2(k), b) == q * Pow2(k) + b
  {
    var a := q * Pow2(k);
    if k == 0 {
      BitOrZero(a);
    } else {
      var half := q * Pow2(k - 1);
      assert a == 2 * half;
      BitOrDisjoint(q, b / 2, k - 1);
    }
  }

  // ---------- Packing ----------

  /** The id expression at the end of Generate, word by word. */
  function Pack(now: int, node: int, sequence: int): int {
    BitOr(BitOr(ShiftLeft(now - EPOCH, TIMESTAMP_SHIFT), ShiftLeft(node, NODE_ID_SHIFT)), sequence)
  }

  predicate IsNode(node: int) { 0 <= node <= MAX_NODE_ID }

  predicate IsSequence(sequence: int) { 0 <= sequence <= SEQUENCE_MASK }

  /** The signed 42-bit offset left in the id once the shift has dropped the high bits. */
  function Offset42(offset: int): (o: int)
    ensures -HORIZON <= o < HORIZON
    ensures -HORIZON <= offset < HORIZON ==> o == offset
  {
    (offset + HORIZON) % (2 * HORIZON) - HORIZON
  }

  function PackedTime(id: int): int { id / 0x40_0000 + EPOCH }

  function PackedNode(id: int): int { id / 0x1000 % 0x400 }

  function PackedSequence(id: int): int { id % 0x1000 }

  lemma PowersUsed()
    ensures Pow2(12) == 0x1000 && Pow2(22) == 0x40_0000 && Pow2(63) == 0x8000_0000_0000_0000
  {
    assert Pow2(6) == 64;
    assert Pow2(12) == 0x1000;
    assert Pow2(18) == 0x4_0000;
    assert Pow2(22) == 0x40_0000;
    assert Pow2(28) == 0x1000_0000;
    assert Pow2(34) == 0x4_0000_0000;
    assert Pow2(40) == 0x100_0000_0000;
    assert Pow2(46) == 0x4000_0000_0000;
    assert Pow2(52) == 0x10_0000_0000_0000;
    assert Pow2(58) == 0x400_0000_0000_0000;
    assert Pow2(63) == 0x8000_0000_0000_0000;
  }

  /** Dropping the high bits of a shifted offset is wrapping the offset itself. */
  lemma WrapShifted(offset: int)
    ensures Wrap64(offset * 0x40_0000) == Offset42(offset) * 0x40_0000
  {
    var r := (offset + 0x200_0000_0000) % 0x400_0000_0000;
    var q := (offset + 0x200_0000_0000) / 0x400_0000_0000;
    assert offset + 0x200_0000_0000 == q * 0x400_0000_0000 + r;
    var x := offset * 0x40_0000 + 0x8000_0000_0000_0000;
    assert x == q * 0x1_0000_0000_0000_0000 + r * 0x40_0000;
    assert x % 0x1_0000_0000_0000_0000 == r * 0x40_0000;
  }

  lemma ShiftKeepsOffset(offset: int)
    ensures ShiftLeft(offset, TIMESTAMP_SHIFT) == Offset42(offset) * 0x40_0000
  {
    PowersUsed();
    WrapShifted(offset);
  }

  /** The id as a number: a wrapped offset, a node and a sequence, each in its own place. */
  function Fields(now: int, node: int, sequence: int): int {
    Offset42(now - EPOCH) * 0x40_0000 + node * 0x1000 + sequence
  }

  /** The word operations of Generate add three fields that do not overlap. */
  lemma PackIsFields(now: int, node: int, sequence: int)
    requires IsNode(node) && IsSequence(sequence)
    ensures Pack(now, node, sequence) == Fields(now, node, sequence)
  {
    PowersUsed();
    ShiftKeepsOffset(now - EPOCH);
    var o := Offset42(now - EPOCH);
    assert ShiftLeft(node, NODE_ID_SHIFT) == node * 0x1000;
    BitOrDisjoint(o, node * 0x1000, 22);
    var q := o * 0x400 + node;
    assert o * 0x40_0000 + node * 0x1000 == q * 0x1000;
    BitOrDisjoint(q, sequence, 12);
  }

  lemma FieldsUnpack(now: int, node: int, sequence: int)
    requires IsNode(node) && IsSequence(sequence)
    ensures var id := Fields(now, node, sequence);
            && PackedTime(id) == EPOCH + Offset42(now - EPOCH)
            && PackedNode(id) == node
            && PackedSequence(id) == sequence
  {
    var id := Fields(now, node, sequence);
    var upper := Offset42(now - EPOCH) * 0x400 + node;
    assert id == upper * 0x1000 + sequence;
    assert id / 0x1000 == upper;
  }

  /** Node and sequence always come back; the time does exactly within 2^41 of the epoch. */
  lemma PackUnpack(now: int, node: int, sequence: int)
    requires IsNode(node) && IsSequence(sequence)
    ensures var id := Pack(now, node, sequence);
            && PackedNode(id) == node
            && PackedSequence(id) == sequence
            && (PackedTime(id) == now <==> -HORIZON <= now - EPOCH < HORIZON)
  {
    PackIsFields(now, node, sequence);
    FieldsUnpack(now, node, sequence);
  }

  /** Generators with different node ids never produce the same id, whatever their clocks. */
  lemma NodesNeverCollide(now: int, node: int, sequence: int, now': int, node': int, sequence': int)
    requires IsNode(node) && IsNode(node') && node != node'
    requires IsSequence(sequence) && IsSequence(sequence')
    ensures Pack(now, node, sequence) != Pack(now', node', sequence')
  {
    PackUnpack(now, node, sequence);
    PackUnpack(now', node', sequence');
  }

  // ---------- The generator ----------

  /** The two fields Generate changes. */
  datatype Gen = Gen(sequence: int, lastTime: int)

  predicate ValidGen(g: Gen) { IsSequence(g.sequence) && 0 <= g.lastTime }

  /** Time and sequence as one number, in the order of the ids made from them. */
  function Key(g: Gen): int { g.lastTime * 0x1000 + g.sequence }

  /** The first reading at or after `from` that is at least `t`, or the end of the readings. */
  function FirstReading(clock: seq<int>, from: nat, t: int): (i: nat)
    requires from <= |clock|
    ensures from <= i <= |clock|
    ensures i < |clock| ==> clock[i] >= t
    ensures forall j | from <= j < i :: clock[j] < t
    decreases |clock| - from
  {
    if from == |clock| || clock[from] >= t then from else FirstReading(clock, from + 1, t)
  }

  lemma FirstReadingIs(clock: seq<int>, from: nat, t: int, i: nat)
    requires from <= i <= |clock|
    requires forall j | from <= j < i :: clock[j] < t
    requires i < |clock| ==> clock[i] >= t
    ensures FirstReading(clock, from, t) == i
  {
  }

  datatype Draw = Drawn(gen: Gen, used: nat) | Waiting(gen: Gen)

  /** One uncontended call of Generate whose clock shows `clock`, reading by reading. */
  function DrawWith(g: Gen, clock: seq<int>): (d: Draw)
    requires ValidGen(g)
    ensures ValidGen(d.gen)
  {
    var i := FirstReading(clock, 0, g.lastTime);
    if i == |clock| then
      Waiting(g)
    else if clock[i] > g.lastTime then
      Drawn(Gen(0, clock[i]), i + 1)
    else
      var next := (g.sequence + 1) % (SEQUENCE_MASK + 1);
      if next != 0 then
        Drawn(Gen(next, g.lastTime), i + 1)
      else
        var j := FirstReading(clock, i + 1, g.lastTime + 1);
        if j == |clock| then Waiting(Gen(0, g.lastTime)) else Drawn(Gen(0, clock[j]), j + 1)
  }

  class Generator {
    var nodeID: int
    var sequence: int
    var lastTime: int

    ghost predicate Valid()
      reads this
    {
      IsNode(nodeID) && ValidGen(Abs())
    }

    ghost function Abs(): Gen
      reads this
    {
      Gen(sequence, lastTime)
    }

    constructor (nodeID: int)
      requires IsNode(nodeID)
      ensures Valid() && this.nodeID == nodeID && Abs() == Gen(0, 0)
    {
      this.nodeID := nodeID;
      sequence, lastTime := 0, 0;
    }

    method SetNodeID(node: int) returns (ok: bool)
      requires Valid()
      modifies this`nodeID
      ensures Valid()
      ensures ok <==> IsNode(node)
      ensures nodeID == if ok then node else old(nodeID)
    {
      ok := 0 <= node && node <= MAX_NODE_ID;
      if ok { nodeID := node; }
    }

    /** One call with the lock to itself. `None` means the readings ran out while it waited. */
    method Generate(clock: seq<int>) returns (id: Option<int>)
      requires Valid()
      modifies this`sequence, this`lastTime
      ensures Valid()
      ensures Abs() == DrawWith(old(Abs()), clock).gen
      ensures id.Some? <==> DrawWith(old(Abs()), clock).Drawn?
      ensures id.Some? ==> id.value == IdOf(nodeID, Abs())
    {
      if |clock| == 0 { return None; }
      var i := 0;
      var now := clock[0];
      if now < lastTime {
        while now < lastTime
          invariant i < |clock| && now == clock[i]
          invariant forall j | 0 <= j < i :: clock[j] < lastTime
          decreases |clock| - i
        {
          i := i + 1;
          if i == |clock| {
            FirstReadingIs(clock, 0, lastTime, i);
            return None;
          }
          now := clock[i];
        }
      }
      FirstReadingIs(clock, 0, lastTime, i);
      if now == lastTime {
        sequence := (sequence + 1) % (SEQUENCE_MASK + 1);
        if sequence == 0 {
          var moved := WaitNextMillis(clock, i + 1);
          if moved.None? { return None; }
          now := moved.value;
        }
      } else {
        sequence := 0;
      }
      lastTime := now;
      var packed := PackedId();
      id := Some(packed);
    }

    method PackedId() returns (id: int)
      requires Valid()
      ensures id == IdOf(nodeID, Abs())
    {
      PackIsFields(lastTime, nodeID, sequence);
      id := Pack(lastTime, nodeID, sequence);
    }

    method WaitNextMillis(clock: seq<int>, from: nat) returns (now: Option<int>)
      requires from <= |clock|
      ensures var j := FirstReading(clock, from, lastTime + 1);
              now == if j == |clock| then None else Some(clock[j])
    {
      var i := from;
      while i < |clock|
        invariant from <= i <= |clock|
        invariant forall j | from <= j < i :: clock[j] <= lastTime
      {
        if clock[i] > lastTime { return Some(clock[i]); }
        i := i + 1;
      }
      return None;
    }
  }

  /** A call returns as soon as the clock shows any millisecond after the last one used. */
  lemma DrawReturns(g: Gen, clock: seq<int>, i: nat)
    requires ValidGen(g) && i < |clock|
    requires clock[i] > g.lastTime
    requires forall j | 0 <= j < i :: clock[j] <= g.lastTime
    ensures DrawWith(g, clock).Drawn?
    ensures DrawWith(g, clock).used <= i + 1
  {
    var k := FirstReading(clock, 0, g.lastTime);
    assert k <= i;
    if clock[k] == g.lastTime {
      var j := FirstReading(clock, k + 1, g.lastTime + 1);
      assert j <= i;
    }
  }

  lemma DrawAdvances(g: Gen, clock: seq<int>)
    requires ValidGen(g)
    ensures DrawWith(g, clock).Drawn? ==> Key(DrawWith(g, clock).gen) > Key(g)
    ensures Key(DrawWith(g, clock).gen) == Key(g) || DrawWith(g, clock).Drawn? || g.sequence == SEQUENCE_MASK
  {
  }

  /** What a call uses: the last reading it took, with the next sequence value of the same millisecond
      or the first of a later one. It takes no reading in vain. */
  lemma DrawIsTimely(g: Gen, clock: seq<int>)
    requires ValidGen(g) && DrawWith(g, clock).Drawn?
    ensures var d := DrawWith(g, clock);
            && 1 <= d.used <= |clock| && d.gen.lastTime == clock[d.used - 1]
            && d.gen.sequence == (if d.gen.lastTime == g.lastTime then g.sequence + 1 else 0)
            && (forall j | 0 <= j < d.used - 1 ::
                  clock[j] < g.lastTime || (clock[j] == g.lastTime && g.sequence == 4095))
  {
  }

  // ---------- Serial runs ----------

  /** The generator states behind the ids that serial calls return, one clock a call. */
  function SerialDraws(g: Gen, clocks: seq<seq<int>>): (gens: seq<Gen>)
    requires ValidGen(g)
    ensures forall k | 0 <= k < |gens| :: ValidGen(gens[k])
    decreases |clocks|
  {
    if clocks == [] then []
    else
      var d := DrawWith(g, clocks[0]);
      if d.Waiting? then [] else [d.gen] + SerialDraws(d.gen, clocks[1..])
  }

  function IdOf(node: int, g: Gen): int { Fields(g.lastTime, node, g.sequence) }

  function Ids(node: int, gens: seq<Gen>): (ids: seq<int>)
    ensures |ids| == |gens|
    ensures forall k | 0 <= k < |gens| :: ids[k] == IdOf(node, gens[k])
  {
    seq(|gens|, k requires 0 <= k < |gens| => IdOf(node, gens[k]))
  }

  ghost predicate KeysIncrease(gens: seq<Gen>) {
    forall i, j | 0 <= i < j < |gens| :: Key(gens[i]) < Key(gens[j])
  }

  lemma {:induction false} SerialKeysIncrease(g: Gen, clocks: seq<seq<int>>)
    requires ValidGen(g)
    ensures KeysIncrease([g] + SerialDraws(g, clocks))
    decreases |clocks|
  {
    var gens := SerialDraws(g, clocks);
    if gens != [] {
      var d := DrawWith(g, clocks[0]);
      DrawAdvances(g, clocks[0]);
      SerialKeysIncrease(d.gen, clocks[1..]);
      assert gens == [d.gen] + SerialDraws(d.gen, clocks[1..]);
      forall i, j | 0 <= i < j < |[g] + gens| ensures Key(([g] + gens)[i]) < Key(([g] + gens)[j]) {
        assert ([g] + gens)[j] == gens[j - 1];
        if i > 0 {
          assert Key(gens[i - 1]) < Key(gens[j - 1]);
        } else if j > 1 {
          assert Key(gens[0]) < Key(gens[j - 1]);
        }
      }
    }
  }

  lemma FieldOrder(t: int, s: int, t': int, s': int, low: int)
    requires IsSequence(s) && IsSequence(s')
    ensures t * 0x1000 + s < t' * 0x1000 + s'
       <==> (t - EPOCH) * 0x40_0000 + low + s < (t' - EPOCH) * 0x40_0000 + low + s'
  {
    if t < t' {
      assert t + 1 <= t';
    } else if t' < t {
      assert t' + 1 <= t;
    }
  }

  /** Ids order as their keys do while the time stays below the 2^41 horizon. */
  lemma IdOrder(node: int, g: Gen, h: Gen)
    requires IsNode(node) && ValidGen(g) && ValidGen(h)
    requires g.lastTime < EPOCH + HORIZON && h.lastTime < EPOCH + HORIZON
    ensures Key(g) < Key(h) <==> IdOf(node, g) < IdOf(node, h)
  {
    FieldOrder(g.lastTime, g.sequence, h.lastTime, h.sequence, node * 0x1000);
  }

  ghost predicate ReadingsBelow(clocks: seq<seq<int>>, bound: int) {
    forall k, i | 0 <= k < |clocks| && 0 <= i < |clocks[k]| :: clocks[k][i] < bound
  }

  lemma {:induction false} DrawnTimesBelow(g: Gen, clocks: seq<seq<int>>, bound: int)
    requires ValidGen(g) && ReadingsBelow(clocks, bound) && g.lastTime < bound
    ensures forall k | 0 <= k < |SerialDraws(g, clocks)| :: SerialDraws(g, clocks)[k].lastTime < bound
    decreases |clocks|
  {
    if clocks != [] {
      var d := DrawWith(g, clocks[0]);
      if d.Drawn? {
        assert forall i | 0 <= i < |clocks[0]| :: clocks[0][i] < bound;
        assert ReadingsBelow(clocks[1..], bound) by {
          forall k, i | 0 <= k < |clocks[1..]| && 0 <= i < |clocks[1..][k]|
            ensures clocks[1..][k][i] < bound
          {
            assert clocks[1..][k] == clocks[k + 1];
          }
        }
        DrawnTimesBelow(d.gen, clocks[1..], bound);
      }
    }
  }

  lemma IdsInOrder(node: int, gens: seq<Gen>)
    requires IsNode(node)
    requires forall k | 0 <= k < |gens| :: ValidGen(gens[k]) && gens[k].lastTime < EPOCH + HORIZON
    requires KeysIncrease(gens)
    ensures StrictlyIncreasing(Ids(node, gens))
  {
    var ids := Ids(node, gens);
    forall i, j | 0 <= i < j < |ids| ensures ids[i] < ids[j] {
      IdOrder(node, gens[i], gens[j]);
    }
  }

  /** Serial ids strictly increase over every sequence of readings below the horizon, backward jumps included. */
  lemma SerialIdsIncrease(node: int, clocks: seq<seq<int>>)
    requires IsNode(node) && ReadingsBelow(clocks, EPOCH + HORIZON)
    ensures StrictlyIncreasing(Ids(node, SerialDraws(Gen(0, 0), clocks)))
  {
    var gens := SerialDraws(Gen(0, 0), clocks);
    SerialKeysIncrease(Gen(0, 0), clocks);
    assert KeysIncrease(gens) by {
      forall i, j | 0 <= i < j < |gens| ensures Key(gens[i]) < Key(gens[j]) {
        assert gens[i] == ([Gen(0, 0)] + gens)[i + 1] && gens[j] == ([Gen(0, 0)] + gens)[j + 1];
      }
    }
    DrawnTimesBelow(Gen(0, 0), clocks, EPOCH + HORIZON);
    IdsInOrder(node, gens);
  }

  /** Any clock value at or past the horizon can break the order. */
  lemma OrderBreaksAt(node: int, t: int)
    requires IsNode(node) && t >= EPOCH + HORIZON
    ensures !StrictlyIncreasing(Ids(node, SerialDraws(Gen(0, 0), [[EPOCH + HORIZON - 1], [t]])))
  {
    var clocks := [[EPOCH + HORIZON - 1], [t]];
    var a := Gen(0, EPOCH + HORIZON - 1);
    var b := Gen(0, t);
    assert DrawWith(Gen(0, 0), clocks[0]) == Drawn(a, 1);
    assert DrawWith(a, clocks[1]) == Drawn(b, 1);
    assert clocks[1..] == [[t]] && clocks[1..][1..] == [];
    assert SerialDraws(a, [[t]]) == [b] + SerialDraws(b, [[t]][1..]);
    var gens := SerialDraws(Gen(0, 0), clocks);
    assert gens == [a, b];
    assert Ids(node, gens)[0] >= Ids(node, gens)[1];
  }

  /** Exactly the clocks that stay below the horizon keep serial ids in order. */
  lemma SerialOrderHorizon(node: int, bound: int)
    requires IsNode(node)
    ensures (forall clocks | ReadingsBelow(clocks, bound) ::
               StrictlyIncreasing(Ids(node, SerialDraws(Gen(0, 0), clocks))))
            <==> bound <= EPOCH + HORIZON
  {
    if bound <= EPOCH + HORIZON {
      forall clocks | ReadingsBelow(clocks, bound)
        ensures StrictlyIncreasing(Ids(node, SerialDraws(Gen(0, 0), clocks)))
      {
        assert ReadingsBelow(clocks, EPOCH + HORIZON);
        SerialIdsIncrease(node, clocks);
      }
    } else {
      var clocks := [[EPOCH + HORIZON - 1], [EPOCH + HORIZON]];
      OrderBreaksAt(node, EPOCH + HORIZON);
      assert ReadingsBelow(clocks, bound);
    }
  }

  /** Each id of a serial run carries its generator's node and the time and sequence it was drawn with. */
  lemma SerialIdsUnpack(node: int, clocks: seq<seq<int>>, k: nat)
    requires IsNode(node) && ReadingsBelow(clocks, EPOCH + HORIZON)
    requires k < |SerialDraws(Gen(0, 0), clocks)|
    ensures var gens := SerialDraws(Gen(0, 0), clocks);
            var id := Ids(node, gens)[k];
            && id == Pack(gens[k].lastTime, node, gens[k].sequence) && PackedNode(id) == node
            && PackedSequence(id) == gens[k].sequence && PackedTime(id) == gens[k].lastTime
  {
    var g := SerialDraws(Gen(0, 0), clocks)[k];
    DrawnTimesBelow(Gen(0, 0), clocks, EPOCH + HORIZON);
    PackIsFields(g.lastTime, node, g.sequence);
    PackUnpack(g.lastTime, node, g.sequence);
  }

  /** Two generators with different nodes share no id, whatever their clocks show. */
  lemma GeneratorsNeverCollide(node: int, clocks: seq<seq<int>>, node': int, clocks': seq<seq<int>>)
    requires IsNode(node) && IsNode(node') && node != node'
    ensures forall id | id in Ids(node, SerialDraws(Gen(0, 0), clocks)) ::
              id !in Ids(node', SerialDraws(Gen(0, 0), clocks'))
  {
    var gens, gens' := SerialDraws(Gen(0, 0), clocks), SerialDraws(Gen(0, 0), clocks');
    forall i, j | 0 <= i < |gens| && 0 <= j < |gens'| ensures Ids(node, gens)[i] != Ids(node', gens')[j] {
      FieldsUnpack(gens[i].lastTime, node, gens[i].sequence);
      FieldsUnpack(gens'[j].lastTime, node', gens'[j].sequence);
    }
  }
}
