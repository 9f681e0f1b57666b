/** What a body means: the sequence of its operations with every loop unrolled.  `Rest` is
    the same meaning seen from a cursor in the middle of the body, given the iteration
    counters, which are never reset and only ever read modulo the trip count. */
module Unrolling {
  import opened Arithmetic
  import opened Programs

  function Repeat<T>(s: seq<T>, n: nat): seq<T> {
    if n == 0 then [] else s + Repeat(s, n - 1)
  }

  /** The operations of block `b` from position `i` on, loops unrolled. */
  function UnrollFrom(p: Program, b: nat, i: nat): seq<Ref>
    requires Valid(p) && b < |p.blocks| && i <= Length(p, b)
    decreases |p.blocks| - b, Length(p, b) - i
  {
    if i == Length(p, b) then []
    else Expand(p, Ref(b, i)) + UnrollFrom(p, b, i + 1)
  }

  /** One operation, followed by all iterations of its body when it is a loop. */
  function Expand(p: Program, r: Ref): seq<Ref>
    requires Valid(p) && IsRef(p, r)
    decreases |p.blocks| - r.block, Length(p, r.block) - r.index, 0
  {
    var op := OpAt(p, r);
    assert ValidOp(p, r);
    if op.For? then [r] + Repeat(Unroll(p, op.body), TripCount(op.lb, op.ub, op.step)) else [r]
  }

  function Unroll(p: Program, b: nat): seq<Ref>
    requires Valid(p) && b < |p.blocks|
    decreases |p.blocks| - b, Length(p, b) + 1
  {
    UnrollFrom(p, b, 0)
  }

  /** What is still to come once the current run of block `b` is over. */
  function After(p: Program, b: nat, ex: Tally): seq<Ref>
    requires Valid(p) && b < |p.blocks|
  {
    if IsLoop(p, b) then
      var q := Parent(p, b);
      Repeat(Unroll(p, b), Trips(p, b) - 1 - Count(ex, YieldOf(p, b)) % Trips(p, b))
      + UnrollFrom(p, q.block, q.index + 1)
      + After(p, q.block, ex)
    else []
  }

  function Rest(p: Program, b: nat, i: nat, ex: Tally): seq<Ref>
    requires Valid(p) && b < |p.blocks| && i <= Length(p, b)
  {
    UnrollFrom(p, b, i) + After(p, b, ex)
  }

  /** Block `a` is block `b` or one of the loops around it, up to the root. */
  predicate OnPath(p: Program, a: nat, b: nat)
    requires Valid(p) && b < |p.blocks|
  {
    a == b || (IsLoop(p, b) && OnPath(p, a, Parent(p, b).block))
  }

  lemma {:induction false} PathBelow(p: Program, a: nat, b: nat)
    requires Valid(p) && b < |p.blocks| && OnPath(p, a, b)
    ensures a <= b && Root(p, a) == Root(p, b)
  {
    if a != b {
      PathBelow(p, a, Parent(p, b).block);
    }
  }

  // ----- The cursor steps pop the head of Rest -----

  lemma RestPlain(p: Program, r: Ref, ex: Tally)
    requires Valid(p) && IsRef(p, r) && !OpAt(p, r).For?
    ensures Rest(p, r.block, r.index, ex) == [r] + Rest(p, r.block, r.index + 1, ex)
  {
    assert Expand(p, r) == [r];
  }

  lemma RestFor(p: Program, r: Ref, ex: Tally)
    requires Valid(p) && IsRef(p, r) && OpAt(p, r).For?
    requires var b := OpAt(p, r).body;
             b < |p.blocks| && IsLoop(p, b) && Count(ex, YieldOf(p, b)) % Trips(p, b) == 0
    ensures Rest(p, r.block, r.index, ex) == [r] + Rest(p, OpAt(p, r).body, 0, ex)
  {
    var b := OpAt(p, r).body;
    assert ValidOp(p, r) && Parent(p, b) == r;
    var body, n := Unroll(p, b), Trips(p, b);
    var tail := UnrollFrom(p, r.block, r.index + 1);
    assert Expand(p, r) == [r] + Repeat(body, n);
    assert After(p, b, ex) == Repeat(body, n - 1) + tail + After(p, r.block, ex);
    ForSplits(r, body, n, tail, After(p, r.block, ex));
  }

  lemma ForSplits(r: Ref, body: seq<Ref>, n: nat, tail: seq<Ref>, after: seq<Ref>)
    requires n > 0
    ensures [r] + Repeat(body, n) + tail + after == [r] + (body + (Repeat(body, n - 1) + tail + after))
  {
  }

  /** Counting the iteration of `b` leaves what follows the loop alone. */
  lemma OuterUnchanged(p: Program, b: nat, ex: Tally)
    requires Valid(p) && b < |p.blocks| && IsLoop(p, b)
    ensures After(p, Parent(p, b).block, Bump(ex, YieldOf(p, b))) == After(p, Parent(p, b).block, ex)
  {
    var q := Parent(p, b).block;
    forall a: nat | a < |p.blocks| && OnPath(p, a, q) ensures YieldOf(p, b) != YieldOf(p, a) {
      PathBelow(p, a, q);
    }
    AfterFrame(p, q, ex, YieldOf(p, b));
  }

  lemma RestYieldRedo(p: Program, b: nat, ex: Tally)
    requires Valid(p) && b < |p.blocks| && IsLoop(p, b)
    requires Count(Bump(ex, YieldOf(p, b)), YieldOf(p, b)) % Trips(p, b) != 0
    ensures After(p, b, ex) == Rest(p, b, 0, Bump(ex, YieldOf(p, b)))
  {
    var r, q, n := YieldOf(p, b), Parent(p, b), Trips(p, b);
    var ex' := Bump(ex, r);
    NextModulo(Count(ex, r), n);
    OuterUnchanged(p, b, ex);
    var m := n - 1 - Count(ex', r) % n;
    var tail := UnrollFrom(p, q.block, q.index + 1);
    assert m + 1 == n - 1 - Count(ex, r) % n;
    assert After(p, b, ex) == Repeat(Unroll(p, b), m + 1) + tail + After(p, q.block, ex);
    RepeatFirst(Unroll(p, b), m, tail, After(p, q.block, ex));
  }

  lemma RepeatFirst<T>(body: seq<T>, m: nat, tail: seq<T>, after: seq<T>)
    ensures Repeat(body, m + 1) + tail + after == body + (Repeat(body, m) + tail + after)
  {
  }

  lemma RestYieldExit(p: Program, b: nat, ex: Tally)
    requires Valid(p) && b < |p.blocks| && IsLoop(p, b)
    requires Count(Bump(ex, YieldOf(p, b)), YieldOf(p, b)) % Trips(p, b) == 0
    ensures After(p, b, ex) == Rest(p, Parent(p, b).block, Parent(p, b).index + 1, Bump(ex, YieldOf(p, b)))
  {
    hide *;
    LastIteration(Count(ex, YieldOf(p, b)), Trips(p, b));
    BumpCounts(ex, YieldOf(p, b));
    OuterUnchanged(p, b, ex);
    AfterLast(p, b, ex);
    RestSplits(p, Parent(p, b).block, Parent(p, b).index + 1, Bump(ex, YieldOf(p, b)));
  }

  lemma BumpCounts(ex: Tally, r: Ref)
    ensures Count(Bump(ex, r), r) == Count(ex, r) + 1
  {
  }

  lemma LastIteration(k: nat, n: nat)
    requires n > 0
    ensures (k + 1) % n == 0 ==> k % n == n - 1
  {
    NextModulo(k, n);
  }

  /** In the last iteration only what follows the loop is still to come. */
  lemma AfterLast(p: Program, b: nat, ex: Tally)
    requires Valid(p) && b < |p.blocks| && IsLoop(p, b)
    ensures Count(ex, YieldOf(p, b)) % Trips(p, b) == Trips(p, b) - 1 ==>
              After(p, b, ex) == UnrollFrom(p, Parent(p, b).block, Parent(p, b).index + 1) + After(p, Parent(p, b).block, ex)
  {
    assert Repeat(Unroll(p, b), 0) == [];
  }

  lemma RestSplits(p: Program, b: nat, i: nat, ex: Tally)
    requires Valid(p) && b < |p.blocks| && i <= Length(p, b)
    ensures Rest(p, b, i, ex) == UnrollFrom(p, b, i) + After(p, b, ex)
  {
  }

  lemma YieldIsLast(p: Program, b: nat, ex: Tally)
    requires Valid(p) && b < |p.blocks| && IsLoop(p, b)
    ensures Rest(p, b, YieldOf(p, b).index, ex) == [YieldOf(p, b)] + After(p, b, ex)
  {
    var r := YieldOf(p, b);
    assert ValidBlock(p, b);
    assert UnrollFrom(p, b, r.index) == [r] + UnrollFrom(p, b, r.index + 1);
  }

  /** The yield of a loop body starts the next iteration, or leaves the loop. */
  lemma RestYield(p: Program, b: nat, ex: Tally)
    requires Valid(p) && b < |p.blocks| && IsLoop(p, b)
    ensures var r := YieldOf(p, b);
            var ex' := Bump(ex, r);
            var q := Parent(p, b);
            Rest(p, b, r.index, ex) ==
            [r] + if (Count(ex, r) + 1) % Trips(p, b) == 0 then Rest(p, q.block, q.index + 1, ex')
                  else Rest(p, b, 0, ex')
  {
    hide Valid, Rest, After, UnrollFrom, Trips, Parent;
    YieldIsLast(p, b, ex);
    if Count(Bump(ex, YieldOf(p, b)), YieldOf(p, b)) % Trips(p, b) == 0 {
      RestYieldExit(p, b, ex);
    } else {
      RestYieldRedo(p, b, ex);
    }
  }

  /** Only the counters of the loops around a cursor matter to it. */
  lemma {:induction false} AfterFrame(p: Program, b: nat, ex: Tally, r: Ref)
    requires Valid(p) && b < |p.blocks|
    requires forall a: nat :: a < |p.blocks| && OnPath(p, a, b) ==> r != YieldOf(p, a)
    ensures After(p, b, Bump(ex, r)) == After(p, b, ex)
  {
    if IsLoop(p, b) {
      var q := Parent(p, b).block;
      forall a: nat | a < |p.blocks| && OnPath(p, a, q) ensures r != YieldOf(p, a) {
        assert OnPath(p, a, b);
      }
      AfterFrame(p, q, ex, r);
      assert OnPath(p, b, b);
    }
  }

  // ----- How often an operation occurs in an unrolled body -----

  function Occurs(s: seq<Ref>, o: Ref): nat {
    multiset(s)[o]
  }

  lemma {:induction false} OccursRepeat(s: seq<Ref>, n: nat, o: Ref)
    ensures Occurs(Repeat(s, n), o) == n * Occurs(s, o)
  {
    if n > 0 {
      OccursRepeat(s, n - 1, o);
      assert n * Occurs(s, o) == Occurs(s, o) + (n - 1) * Occurs(s, o);
    }
  }

  lemma OccursExpand(p: Program, r: Ref, o: Ref)
    requires Valid(p) && IsRef(p, r)
    ensures var op := OpAt(p, r);
            ValidOp(p, r) &&
            Occurs(Expand(p, r), o) ==
            (if o == r then 1 else 0)
            + if op.For? then TripCount(op.lb, op.ub, op.step) * Occurs(Unroll(p, op.body), o) else 0
  {
    var op := OpAt(p, r);
    assert ValidOp(p, r);
    if op.For? {
      OccursRepeat(Unroll(p, op.body), TripCount(op.lb, op.ub, op.step), o);
    }
  }

  /** What an operation `o` of block c contributes to an unrolling of block b from position i:
      nothing if c is outside b or in a launch nested in b, one if c is b itself, and otherwise
      one per iteration for every time the loop around it comes up. */
  ghost predicate OccursAsNested(p: Program, b: nat, s: seq<Ref>, o: Ref, here: nat)
    requires Valid(p) && b < |p.blocks| && IsRef(p, o)
  {
    Occurs(s, o) ==
    if o.block < b then 0
    else if o.block == b then here
    else if IsLoop(p, o.block) then Trips(p, o.block) * Occurs(s, Parent(p, o.block))
    else 0
  }

  lemma {:induction false} OccursFrom(p: Program, b: nat, i: nat, o: Ref)
    requires Valid(p) && b < |p.blocks| && i <= Length(p, b) && IsRef(p, o)
    ensures OccursAsNested(p, b, UnrollFrom(p, b, i), o, if i <= o.index then 1 else 0)
    decreases |p.blocks| - b, Length(p, b) - i
  {
    if i < Length(p, b) {
      OccursFrom(p, b, i + 1, o);
      OccursNestedExpand(p, Ref(b, i), o);
      OccursConcat(p, b, Expand(p, Ref(b, i)), UnrollFrom(p, b, i + 1), o,
                   if o == Ref(b, i) then 1 else 0, if i + 1 <= o.index then 1 else 0);
    }
  }

  lemma OccursConcat(p: Program, b: nat, s: seq<Ref>, t: seq<Ref>, o: Ref, m: nat, n: nat)
    requires Valid(p) && b < |p.blocks| && IsRef(p, o)
    requires OccursAsNested(p, b, s, o, m) && OccursAsNested(p, b, t, o, n)
    ensures OccursAsNested(p, b, s + t, o, m + n)
  {
    if o.block > b && IsLoop(p, o.block) {
      var q := Parent(p, o.block);
      MulDistributes(Occurs(s, q), Occurs(t, q), Trips(p, o.block));
    }
  }

  lemma {:induction false} OccursNestedExpand(p: Program, r: Ref, o: Ref)
    requires Valid(p) && IsRef(p, r) && IsRef(p, o)
    ensures OccursAsNested(p, r.block, Expand(p, r), o, if o == r then 1 else 0)
    decreases |p.blocks| - r.block, Length(p, r.block) - r.index, 0
  {
    OccursExpand(p, r, o);
    var op := OpAt(p, r);
    if op.For? {
      assert ValidOp(p, r) && Parent(p, op.body) == r;
      OccursFrom(p, op.body, 0, o);
      if o.block > r.block && IsLoop(p, o.block) {
        var q := Parent(p, o.block);
        OccursExpand(p, r, q);
        OccursFrom(p, op.body, 0, q);
        if o.block > op.body {
          MulSwaps(Trips(p, op.body), Trips(p, o.block), Occurs(Unroll(p, op.body), q));
        }
      }
    } else if o.block > r.block && IsLoop(p, o.block) {
      OccursExpand(p, r, Parent(p, o.block));
    }
  }

  /** One run of a root executes an operation as often as the loops around it say, and
      executes nothing of any other root. */
  lemma {:induction false} OccursUnroll(p: Program, b: nat, o: Ref)
    requires Valid(p) && b < |p.blocks| && !IsLoop(p, b) && IsRef(p, o)
    ensures Occurs(Unroll(p, b), o) == if Root(p, o.block) == b then LoopFactor(p, o.block) else 0
    decreases o.block
  {
    OccursFrom(p, b, 0, o);
    if o.block > b && IsLoop(p, o.block) {
      OccursUnroll(p, b, Parent(p, o.block));
    }
  }

  lemma {:induction false} InRepeat<T>(s: seq<T>, n: nat, x: T)
    requires x in Repeat(s, n)
    ensures x in s
  {
    if x !in s {
      InRepeat(s, n - 1, x);
    }
  }

  lemma {:induction false} UnrollStays(p: Program, b: nat, i: nat, o: Ref)
    requires Valid(p) && b < |p.blocks| && i <= Length(p, b) && o in UnrollFrom(p, b, i)
    ensures IsRef(p, o) && Root(p, o.block) == Root(p, b)
    decreases |p.blocks| - b, Length(p, b) - i
  {
    var op := OpAt(p, Ref(b, i));
    assert ValidOp(p, Ref(b, i));
    if o in UnrollFrom(p, b, i + 1) {
      UnrollStays(p, b, i + 1, o);
    } else if o != Ref(b, i) {
      InRepeat(Unroll(p, op.body), TripCount(op.lb, op.ub, op.step), o);
      UnrollStays(p, op.body, 0, o);
      assert Parent(p, op.body) == Ref(b, i);
    }
  }

  lemma {:induction false} RestStays(p: Program, b: nat, i: nat, ex: Tally, o: Ref)
    requires Valid(p) && b < |p.blocks| && i <= Length(p, b) && o in Rest(p, b, i, ex)
    ensures IsRef(p, o) && Root(p, o.block) == Root(p, b)
  {
    if o in UnrollFrom(p, b, i) {
      UnrollStays(p, b, i, o);
    } else {
      var q := Parent(p, b);
      var n := Trips(p, b) - 1 - Count(ex, YieldOf(p, b)) % Trips(p, b);
      if o in Repeat(Unroll(p, b), n) {
        InRepeat(Unroll(p, b), n, o);
        UnrollStays(p, b, 0, o);
      } else {
        RestStays(p, q.block, q.index + 1, ex, o);
      }
    }
  }
}
