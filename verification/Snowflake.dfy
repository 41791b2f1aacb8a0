/** SnowflakeIdGenerator: 42 bits of milliseconds since the epoch, 10 bits of node, 12 bits of sequence, in one 64-bit
    word. The clock is a series of readings that may move either way. */
module Snowflake {

  const NODE_MAX := 1023
  const SEQUENCES := 4096
  const OFFSETS := 0x400_0000_0000    // two to the 42
  const SMALL_STEP_BACK := 5

  datatype Generator = Generator(node: nat, epoch: nat, last: nat, sequence: nat)

  datatype Outcome = Id(id: nat) | MovedBackwards | BeforeEpoch | StillWaiting

  /** The id as a number. Shifting the offset by 22 drops what does not fit 42 bits, and joining three fields that do
      not overlap is adding them, as FieldsJoin says of the machine word. */
  function Compose(node: nat, offset: nat, sequence: nat): nat {
    offset % OFFSETS * 0x40_0000 + node * SEQUENCES + sequence
  }

  lemma FieldsJoin(node: bv64, offset: bv64, sequence: bv64)
    requires node <= 1023 && sequence <= 4095
    ensures (offset << 22) | (node << 12) | sequence == ((offset & 0x3FF_FFFF_FFFF) << 22) + (node << 12) + sequence
  {
  }

  predicate Valid(g: Generator) {
    g.node <= NODE_MAX && g.sequence < SEQUENCES
  }

  /** The sequence counts up within a millisecond and starts over in the next. */
  predicate Follows(g: Generator, r: Generator) {
    (r.last > g.last && r.sequence == 0) || (r.last == g.last && r.sequence == g.sequence + 1)
  }

  predicate Before(t1: nat, s1: nat, t2: nat, s2: nat) {
    t1 < t2 || (t1 == t2 && s1 < s2)
  }

  // ---------------------------------------------------------------------------------------------
  // The word

  /** For one node, ids are ordered exactly as the low 42 bits of the offset and then the sequence. */
  lemma ComposeOrders(node: nat, o1: nat, s1: nat, o2: nat, s2: nat)
    requires node <= NODE_MAX && s1 < SEQUENCES && s2 < SEQUENCES
    ensures Compose(node, o1, s1) < Compose(node, o2, s2) <==> Before(o1 % OFFSETS, s1, o2 % OFFSETS, s2)
  {
    FieldsOrder(node, o1 % OFFSETS, s1, o2 % OFFSETS, s2);
  }

  lemma FieldsOrder(node: nat, m1: nat, s1: nat, m2: nat, s2: nat)
    requires node <= NODE_MAX && s1 < SEQUENCES && s2 < SEQUENCES
    ensures m1 * 0x40_0000 + node * SEQUENCES + s1 < m2 * 0x40_0000 + node * SEQUENCES + s2 <==> Before(m1, s1, m2, s2)
  {
  }

  /** Different nodes never share an id, whatever the clocks say. */
  lemma NodesNeverCollide(n1: nat, o1: nat, s1: nat, n2: nat, o2: nat, s2: nat)
    requires n1 <= NODE_MAX && n2 <= NODE_MAX && n1 != n2 && s1 < SEQUENCES && s2 < SEQUENCES
    ensures Compose(n1, o1, s1) != Compose(n2, o2, s2)
  {
    FieldsDiffer(o1 % OFFSETS, n1, s1, o2 % OFFSETS, n2, s2);
  }

  lemma FieldsDiffer(m1: nat, n1: nat, s1: nat, m2: nat, n2: nat, s2: nat)
    requires n1 <= NODE_MAX && n2 <= NODE_MAX && n1 != n2 && s1 < SEQUENCES && s2 < SEQUENCES
    ensures m1 * 0x40_0000 + n1 * SEQUENCES + s1 != m2 * 0x40_0000 + n2 * SEQUENCES + s2
  {
    LowFields(m1, n1, s1);
    LowFields(m2, n2, s2);
  }

  /** The 22 low bits hold the node and the sequence, and above the sequence comes the node. */
  lemma LowFields(m: nat, n: nat, s: nat)
    requires n <= NODE_MAX && s < SEQUENCES
    ensures (m * 0x40_0000 + n * SEQUENCES + s) / SEQUENCES % (NODE_MAX + 1) == n
  {
    assert m * 0x40_0000 + n * SEQUENCES + s == (m * (NODE_MAX + 1) + n) * SEQUENCES + s;
    assert (m * 0x40_0000 + n * SEQUENCES + s) / SEQUENCES == m * (NODE_MAX + 1) + n;
  }

  // ---------------------------------------------------------------------------------------------
  // The class

  class SnowflakeIdGenerator {
    const node: nat
    const epoch: nat
    var last: nat
    var sequence: nat

    function View(): Generator
      reads this
    {
      Generator(node, epoch, last, sequence)
    }

    constructor (node: nat, epoch: nat)
      ensures View() == Generator(node, epoch, 0, 0)
    {
      this.node, this.epoch, last, sequence := node, epoch, 0, 0;
    }

    /** The constructor's check throws where this gives null. */
    static method Create(node: nat, epoch: nat, now: nat) returns (g: SnowflakeIdGenerator?)
      ensures g == null <==> node > NODE_MAX || epoch >= now
      ensures g != null ==> fresh(g) && g.View() == Generator(node, epoch, 0, 0) && Valid(g.View())
    {
      if node > NODE_MAX || epoch >= now {
        return null;
      }
      g := new SnowflakeIdGenerator(node, epoch);
    }

    /** Reads the clock until it is past the last timestamp; runs out of readings while it still sleeps. */
    method WaitPast(clock: seq<nat>, from: nat) returns (now: nat, next: nat, done: bool)
      requires from <= |clock|
      ensures done ==> now > last && now in clock[from..]
      ensures !done ==> forall i :: from <= i < |clock| ==> clock[i] <= last
    {
      next, done := from, false;
      while next < |clock|
        invariant from <= next <= |clock|
        invariant forall i :: from <= i < next ==> clock[i] <= last
      {
        now := clock[next];
        next := next + 1;
        if now > last {
          assert now == clock[from..][next - 1 - from];
          done := true;
          return;
        }
      }
      now := last;
    }

    /** Each id is made from a timestamp and sequence later than the last ones. A step back of more than five
        milliseconds is refused and changes nothing; a smaller one is waited out, and so is a full sequence. */
    method NextId(clock: seq<nat>) returns (out: Outcome)
      requires Valid(View()) && |clock| > 0
      modifies this
      ensures !out.StillWaiting? ==> CallOk(old(View()), View(), out)
      ensures out.MovedBackwards? <==> clock[0] < old(last) && old(last) - clock[0] > SMALL_STEP_BACK
      ensures out.Id? || out.BeforeEpoch? ==>
                last in clock && last >= old(last) && sequence == if last == old(last) then old(sequence) + 1 else 0
      ensures out.StillWaiting? ==> forall i :: 0 <= i < |clock| ==> clock[i] <= old(last)
      ensures Valid(View())
    {
      var now, next, done := clock[0], 1, true;
      if now < last {
        if last - now > SMALL_STEP_BACK {
          return MovedBackwards;
        }
        now, next, done := WaitPast(clock, next);
        if !done {
          return StillWaiting;
        }
      }
      if now == last {
        sequence := (sequence + 1) % SEQUENCES;
        if sequence == 0 {
          now, next, done := WaitPast(clock, next);
          if !done {
            return StillWaiting;
          }
        }
      } else {
        sequence := 0;
      }
      last := now;
      if now < epoch {
        return BeforeEpoch;
      }
      out := Id(Compose(node, now - epoch, sequence));
    }
  }

  // ---------------------------------------------------------------------------------------------
  // Every series of calls

  /** How a completed call leaves the generator. */
  predicate CallOk(g: Generator, r: Generator, out: Outcome) {
    && r.node == g.node && r.epoch == g.epoch && Valid(r)
    && match out
       case Id(id) => Follows(g, r) && r.epoch <= r.last && id == Compose(r.node, r.last - r.epoch, r.sequence)
       case BeforeEpoch => Follows(g, r) && r.last < r.epoch
       case MovedBackwards => r == g
       case StillWaiting => false
  }

  ghost predicate IsRun(states: seq<Generator>, outs: seq<Outcome>) {
    && |states| == |outs| + 1
    && Valid(states[0])
    && forall i :: 0 <= i < |outs| ==> CallOk(states[i], states[i + 1], outs[i])
  }

  lemma {:induction false} TimeMovesOn(states: seq<Generator>, outs: seq<Outcome>, i: nat, j: nat)
    requires IsRun(states, outs) && i <= j < |states|
    ensures states[j].node == states[i].node && states[j].epoch == states[i].epoch
    ensures states[i] == states[j]
            || Before(states[i].last, states[i].sequence, states[j].last, states[j].sequence)
    decreases j
  {
    if i < j {
      TimeMovesOn(states, outs, i, j - 1);
      assert CallOk(states[j - 1], states[j - 1 + 1], outs[j - 1]);
    }
  }

  /** Over any series of calls, whatever the clock does, a later id is greater exactly when its timestamp and sequence
      are still greater in 42 bits; so ids strictly increase as long as the later offset fits 42 bits. */
  lemma IdsIncrease(states: seq<Generator>, outs: seq<Outcome>, i: nat, j: nat)
    requires IsRun(states, outs) && i < j < |outs| && outs[i].Id? && outs[j].Id?
    ensures var g, r := states[i + 1], states[j + 1];
            g.epoch <= g.last && r.epoch <= r.last
            && (outs[i].id < outs[j].id <==>
                Before((g.last - g.epoch) % OFFSETS, g.sequence, (r.last - r.epoch) % OFFSETS, r.sequence))
    ensures states[j + 1].last - states[j + 1].epoch < OFFSETS ==> outs[i].id < outs[j].id
  {
    var g, r := states[i + 1], states[j + 1];
    assert CallOk(states[i], states[i + 1], outs[i]) && CallOk(states[j], states[j + 1], outs[j]);
    TimeMovesOn(states, outs, i + 1, j);
    ComposeOrders(g.node, g.last - g.epoch, g.sequence, r.last - r.epoch, r.sequence);
    FittingOrder(g.last - g.epoch, g.sequence, r.last - r.epoch, r.sequence);
  }

  lemma FittingOrder(o1: nat, s1: nat, o2: nat, s2: nat)
    requires Before(o1, s1, o2, s2)
    ensures o2 < OFFSETS ==> Before(o1 % OFFSETS, s1, o2 % OFFSETS, s2)
  {
  }

  /** Past 42 bits the timestamp wraps and the same id comes back. */
  lemma WrapRepeatsIds(node: nat, offset: nat, sequence: nat)
    ensures Compose(node, offset + OFFSETS, sequence) == Compose(node, offset, sequence)
  {
  }
}
