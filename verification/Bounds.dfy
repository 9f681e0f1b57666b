/** Static multiplicity: the product of enclosing trip counts bounds how often an operation
    is started, and equals it once everything has drained.  The bound gives a static check
    that no event queue ever fills up. */
module Bounds {
  import opened Arithmetic
  import opened Programs
  import opened Unrolling
  import opened Simulator
  import opened Actions
  import opened Invariants

  /** Everything of operation `o` that is or will be fetched by the runs begun so far. */
  function Foreseen(p: Program, s: State, o: Ref): nat
    requires Valid(p) && Typed(p, s) && IsRef(p, o)
  {
    Fetched(p, s, o) + Ahead(p, s, o)
  }

  lemma {:induction false} BegunBound(p: Program, s: State, b: nat)
    requires Valid(p) && Inv(p, s) && b < |p.blocks| && !IsLoop(p, b)
    ensures Begun(p, s, b) <= BlockExs(p, b)
    decreases b, 0
  {
    if b > 0 {
      ForeseenBound(p, s, Parent(p, b));
    }
  }

  lemma {:induction false} ForeseenBound(p: Program, s: State, o: Ref)
    requires Valid(p) && Inv(p, s) && IsRef(p, o) && Tracked(OpAt(p, o))
    ensures Foreseen(p, s, o) <= BlockExs(p, o.block)
    decreases o.block, 1
  {
    var root := Root(p, o.block);
    BegunBound(p, s, root);
    BlockExsFactors(p, o.block);
    assert CountOk(p, s, o);
    MulMonotone(LoopFactor(p, o.block), Begun(p, s, root), BlockExs(p, root));
  }

  /** All queues are empty and no launcher has anything left to do. */
  ghost predicate Drained(p: Program, s: State)
    requires Valid(p)
  {
    && s.controlQueue == []
    && forall i: nat :: i < |s.tables| ==>
         s.tables[i].queue == [] && s.tables[i].entry.Idle? && AtEnd(p, s.tables[i])
  }

  lemma {:induction false} BegunDrained(p: Program, s: State, b: nat)
    requires Valid(p) && Inv(p, s) && Drained(p, s) && b < |p.blocks| && !IsLoop(p, b)
    ensures Begun(p, s, b) == BlockExs(p, b)
    decreases b, 0
  {
    if b > 0 {
      StartsDrained(p, s, Parent(p, b));
    }
  }

  /** Once everything has drained, every launch, memcpy, await and control operation was
      started exactly as often as its block's static multiplicity says. */
  lemma {:induction false} StartsDrained(p: Program, s: State, o: Ref)
    requires Valid(p) && Inv(p, s) && Drained(p, s) && IsRef(p, o) && Tracked(OpAt(p, o))
    ensures Count(s.opMap, o) == BlockExs(p, o.block)
    decreases o.block, 1
  {
    var root := Root(p, o.block);
    BegunDrained(p, s, root);
    BlockExsFactors(p, o.block);
    assert CountOk(p, s, o);
    RestAtEnd(p, RunsOn(p, root), s.tables[RunsOn(p, root)], s.exTimes);
    assert Ahead(p, s, o) == 0;
    assert Pending(p, s, o) == 0;
  }

  /** ... and every event and control operation produced its signal as often. */
  lemma SignalsDrained(p: Program, s: State, o: Ref)
    requires Valid(p) && Inv(p, s) && Drained(p, s) && IsRef(p, o) && OpAt(p, o).IsAsync()
    ensures Count(s.opMap, o) == Count(s.valueMap, o) == BlockExs(p, o.block)
  {
    StartsDrained(p, s, o);
    assert SignalOk(p, s, o);
  }

  // ----- Event queues never fill up -----

  /** The sum of f over the first i operations of block b, and of all blocks before it. */
  ghost function SumRefs(p: Program, f: Ref -> nat, b: nat, i: nat): nat
    requires b <= |p.blocks| && (b == |p.blocks| ==> i == 0) && (b < |p.blocks| ==> i <= |p.blocks[b].ops|)
    decreases b, i
  {
    if i > 0 then f(Ref(b, i - 1)) + SumRefs(p, f, b, i - 1)
    else if b > 0 then SumRefs(p, f, b - 1, |p.blocks[b - 1].ops|)
    else 0
  }

  ghost function Sum(p: Program, f: Ref -> nat): nat {
    SumRefs(p, f, |p.blocks|, 0)
  }

  predicate Covered(p: Program, r: Ref, b: nat, i: nat) {
    IsRef(p, r) && (r.block < b || (r.block == b && r.index < i))
  }

  /** A sum of pointwise smaller terms is smaller, and strictly so if one term is. */
  lemma {:induction false} SumBelow(p: Program, f: Ref -> nat, g: Ref -> nat, x: Ref, b: nat, i: nat)
    requires b <= |p.blocks| && (b == |p.blocks| ==> i == 0) && (b < |p.blocks| ==> i <= |p.blocks[b].ops|)
    requires forall r :: IsRef(p, r) ==> f(r) <= g(r)
    ensures SumRefs(p, f, b, i) <= SumRefs(p, g, b, i)
    ensures Covered(p, x, b, i) && f(x) < g(x) ==> SumRefs(p, f, b, i) < SumRefs(p, g, b, i)
    decreases b, i
  {
    if i > 0 {
      assert IsRef(p, Ref(b, i - 1));
      SumBelow(p, f, g, x, b, i - 1);
    } else if b > 0 {
      SumBelow(p, f, g, x, b - 1, |p.blocks[b - 1].ops|);
    }
  }

  /** A queue is no longer than the sum of the occurrences of all operations in it. */
  lemma {:induction false} QueueLength(p: Program, q: seq<Ref>)
    requires forall r :: r in q ==> IsRef(p, r)
    ensures |q| <= Sum(p, r => Occurs(q, r))
  {
    if q != [] {
      var n := |q| - 1;
      var x := q[n];
      QueueLength(p, q[..n]);
      assert q == q[..n] + [x];
      forall r ensures Occurs(q[..n], r) + Bit(r == x) == Occurs(q, r) {
        OccursSnoc(q[..n], x, r);
      }
      SumBelow(p, r => Occurs(q[..n], r), r => Occurs(q, r), x, |p.blocks|, 0);
    }
  }

  ghost function EventLoad(p: Program, d: nat): Ref -> nat
    requires Valid(p)
  {
    r => if IsRef(p, r) && OpAt(p, r).IsEvent() && OpAt(p, r).device == d then BlockExs(p, r.block) else 0
  }

  /** The whole program sends no device more events than its queue can hold. */
  ghost predicate FitsQueues(p: Program)
    requires Valid(p)
  {
    forall d: nat :: 0 < d < p.launchers ==> Sum(p, EventLoad(p, d)) <= EVENT_QUEUE_SIZE
  }

  /** While an event for a device is still to be fetched, its queue has room. */
  lemma QueueHasRoom(p: Program, s: State, o: Ref)
    requires Valid(p) && Inv(p, s) && FitsQueues(p)
    requires IsRef(p, o) && OpAt(p, o).IsEvent() && Ahead(p, s, o) > 0
    ensures OpAt(p, o).device < |s.tables| && |s.tables[OpAt(p, o).device].queue| < EVENT_QUEUE_SIZE
  {
    assert ValidOp(p, o);
    var d := OpAt(p, o).device;
    var q := s.tables[d].queue;
    assert TypedQueue(p, d, q);
    QueueLength(p, q);
    ForeseenBound(p, s, o);
    forall r | IsRef(p, r) ensures Occurs(q, r) <= EventLoad(p, d)(r) {
      QueuedBound(p, s, d, r);
    }
    SumBelow(p, r => Occurs(q, r), EventLoad(p, d), o, |p.blocks|, 0);
  }

  lemma QueuedBound(p: Program, s: State, d: nat, r: Ref)
    requires Valid(p) && Inv(p, s) && d < |s.tables| && IsRef(p, r)
    ensures Occurs(s.tables[d].queue, r) <= EventLoad(p, d)(r)
  {
    assert TypedQueue(p, d, s.tables[d].queue);
    if r in s.tables[d].queue {
      ForeseenBound(p, s, r);
    }
  }

  /** With the static check, a launcher that finds its entry empty can always fetch. */
  lemma FetchNeverStuck(p: Program, s: State, i: nat)
    requires Valid(p) && Inv(p, s) && FitsQueues(p) && i < |s.tables| && HasNext(p, s.tables[i])
    ensures CanFetch(p, s, i)
  {
    var l := s.tables[i];
    var r := NextRef(l);
    assert ValidOp(p, r);
    if OpAt(p, r).IsEvent() {
      RestPlain(p, r, s.exTimes);
      OccursSnoc(Rest(p, r.block, r.index + 1, s.exTimes), r, r);
      QueueHasRoom(p, s, r);
    }
  }
}
