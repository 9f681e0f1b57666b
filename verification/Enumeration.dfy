/** Enumeration of the index vectors of a box, and its use to unroll a parallel loop. */
module Enumeration {
  import opened Arithmetic
  import opened Nests

  /** A growing vector that is passed by reference. */
  class Listing<T> {
    var items: seq<T>

    constructor ()
      ensures items == []
    {
      items := [];
    }

    method PushBack(x: T)
      modifies this
      ensures items == old(items) + [x]
    {
      items := items + [x];
    }
  }

  /** The nest of unit-step loops from zero that a recursive enumeration stands for. */
  function Box(ubs: seq<int>): (nest: seq<Loop>)
    ensures Rectangular(nest) && NestOk(nest) && |nest| == |ubs|
  {
    seq(|ubs|, i requires 0 <= i < |ubs| => Loop(Fixed(0), Fixed(ubs[i]), 1))
  }

  predicate InBox(ubs: seq<int>, v: seq<int>) {
    |v| == |ubs| && forall i :: 0 <= i < |v| ==> 0 <= v[i] < ubs[i]
  }

  /** The vectors of the box that start with `line`, in the order of the loops. */
  function Tuples(ubs: seq<int>, line: seq<int>): seq<seq<int>>
    requires |line| <= |ubs|
  {
    Run(Box(ubs), line, Vector)
  }

  /** The recursion that pushes an index, lists everything below it and pops it again. */
  method GetPermutation(newIvs: Listing<seq<int>>, lineIvs: seq<int>, i: nat, ubs: seq<int>)
    requires |lineIvs| == i <= |ubs|
    modifies newIvs
    ensures newIvs.items == old(newIvs.items) + Tuples(ubs, lineIvs)
    decreases |ubs| - i
  {
    if i < |ubs| {
      var line := lineIvs;
      ghost var nest, was := Box(ubs), newIvs.items;
      var j := 0;
      while j < ubs[i]
        invariant line == lineIvs
        invariant 0 <= j
        invariant newIvs.items + RunOver(nest, lineIvs, Range(j, ubs[i], 1), Vector)
               == was + RunOver(nest, lineIvs, Range(0, ubs[i], 1), Vector)
      {
        ghost var now := newIvs.items;
        line := line + [j];
        GetPermutation(newIvs, line, i + 1, ubs);
        line := line[..|line| - 1];
        RunOverNext(nest, lineIvs, j, ubs[i], Vector);
        j := j + 1;
      }
      assert Range(j, ubs[i], 1) == [];
    } else {
      newIvs.PushBack(lineIvs);
    }
  }

  lemma RunOverNext<T>(nest: seq<Loop>, env: seq<int>, j: int, n: int, body: seq<int> -> T)
    requires NestOk(nest) && |env| < |nest| && j < n
    ensures RunOver(nest, env, Range(j, n, 1), body)
         == Run(nest, env + [j], body) + RunOver(nest, env, Range(j + 1, n, 1), body)
  {
    assert Range(j, n, 1)[1..] == Range(j + 1, n, 1);
  }

  /** Every vector of the box is listed exactly once, nothing else is, and the list is in
      lexicographic order. */
  lemma TuplesExact(ubs: seq<int>, v: seq<int>)
    ensures Occurs(Tuples(ubs, []), v) == if InBox(ubs, v) then 1 else 0
    ensures Sorted(Tuples(ubs, []))
  {
    var nest := Box(ubs);
    RectangularCount(nest, [], v);
    RunSorted(nest, []);
    if |v| == |ubs| {
      forall i | 0 <= i < |v| ensures InDimension(nest[i], v[i]) <==> 0 <= v[i] < ubs[i] {
        RangeMembers(0, ubs[i], 1, v[i]);
      }
      assert InNest(nest, [], v) <==> InBox(ubs, v);
    }
  }

  // ----- Unrolling a parallel loop -----

  /** The extents of a parallel loop, the only thing its unrolling looks at. */
  function Extents(nest: seq<Loop>): seq<int>
    requires Rectangular(nest)
  {
    seq(|nest|, i requires 0 <= i < |nest| => nest[i].ub.value - nest[i].lb.value)
  }

  predicate EmptyDimension(l: Loop)
    requires l.lb.Fixed? && l.ub.Fixed?
  {
    l.lb.value >= l.ub.value
  }

  /** A dimension that counts from zero in steps of one, or only ever is zero. */
  predicate CountsFromZero(l: Loop)
    requires l.lb.Fixed? && l.ub.Fixed?
  {
    l.lb.value == 0 && (l.step == 1 || l.ub.value == 1)
  }

  ghost predicate Unrollable(nest: seq<Loop>)
    requires Rectangular(nest)
  {
    || (exists i :: 0 <= i < |nest| && EmptyDimension(nest[i]))
    || (forall i :: 0 <= i < |nest| ==> CountsFromZero(nest[i]))
  }

  lemma DimensionAgrees(l: Loop, x: int)
    requires l.lb.Fixed? && l.ub.Fixed? && l.step > 0 && CountsFromZero(l)
    ensures InDimension(l, x) <==> 0 <= x < l.ub.value
  {
    RangeMembers(0, l.ub.value, l.step, x);
  }

  /** A value that tells a dimension from its unrolling. */
  lemma DimensionDiffers(l: Loop) returns (x: int)
    requires l.lb.Fixed? && l.ub.Fixed? && l.step > 0 && !EmptyDimension(l) && !CountsFromZero(l)
    ensures InDimension(l, x) != (0 <= x < l.ub.value - l.lb.value)
  {
    var lo, hi := l.lb.value, l.ub.value;
    x := if lo < 0 then lo else if lo > 0 then 0 else 1;
    RangeMembers(lo, hi, l.step, x);
    if lo == 0 {
      ModuloShift(1, l.step);
    }
  }

  lemma VectorsUnrolled(nest: seq<Loop>, v: seq<int>)
    requires Rectangular(nest) && Unrollable(nest)
    ensures InNest(nest, [], v) <==> InBox(Extents(nest), v)
  {
    if |v| == |nest| {
      if i :| 0 <= i < |nest| && EmptyDimension(nest[i]) {
        assert !InDimension(nest[i], v[i]);
        assert !(0 <= v[i] < Extents(nest)[i]);
      } else {
        forall i | 0 <= i < |nest| ensures InDimension(nest[i], v[i]) <==> 0 <= v[i] < Extents(nest)[i] {
          DimensionAgrees(nest[i], v[i]);
        }
      }
    }
  }

  lemma VectorsLost(nest: seq<Loop>) returns (v: seq<int>)
    requires Rectangular(nest) && !Unrollable(nest)
    ensures InNest(nest, [], v) != InBox(Extents(nest), v)
  {
    var i :| 0 <= i < |nest| && !CountsFromZero(nest[i]);
    var x := DimensionDiffers(nest[i]);
    if InDimension(nest[i], x) {
      v := seq(|nest|, k requires 0 <= k < |nest| => if k == i then x else nest[k].lb.value);
      forall k | 0 <= k < |nest| ensures InDimension(nest[k], v[k]) {
        assert !EmptyDimension(nest[k]);
      }
      assert !(0 <= v[i] < Extents(nest)[i]);
    } else {
      v := seq(|nest|, k requires 0 <= k < |nest| => if k == i then x else 0);
      forall k | 0 <= k < |nest| ensures 0 <= v[k] < Extents(nest)[k] {
        assert !EmptyDimension(nest[k]);
      }
      assert !InDimension(nest[i], v[i]);
    }
  }

  /** The clones of a parallel body are exactly its instances, each once, if and only if every
      dimension counts from zero in steps of one (or the loop is empty): the enumeration looks
      at the extents only and substitutes 0, 1, ... for the variables. */
  lemma UnrollingExact(nest: seq<Loop>)
    requires Rectangular(nest)
    ensures NestOk(nest)
    ensures multiset(Tuples(Extents(nest), [])) == multiset(Run(nest, [], Vector)) <==> Unrollable(nest)
  {
    RectangularCount(nest, [], []);
    var clones, plain := Tuples(Extents(nest), []), Run(nest, [], Vector);
    if Unrollable(nest) {
      forall v ensures Occurs(clones, v) == Occurs(plain, v) {
        TuplesExact(Extents(nest), v);
        RectangularCount(nest, [], v);
        VectorsUnrolled(nest, v);
      }
      SameCounts(clones, plain);
    } else {
      var v := VectorsLost(nest);
      TuplesExact(Extents(nest), v);
      RectangularCount(nest, [], v);
      assert Occurs(clones, v) != Occurs(plain, v);
    }
  }

  /** A parallel loop from 1 to 3 is cloned for 0 and 1. */
  lemma ShiftedLoop()
    ensures var nest := [Loop(Fixed(1), Fixed(3), 1)];
            && Rectangular(nest) && !Unrollable(nest)
            && Occurs(Tuples(Extents(nest), []), [0]) == 1 && Occurs(Run(nest, [], Vector), [0]) == 0
            && Occurs(Tuples(Extents(nest), []), [2]) == 0 && Occurs(Run(nest, [], Vector), [2]) == 1
  {
    var nest := [Loop(Fixed(1), Fixed(3), 1)];
    assert !EmptyDimension(nest[0]) && !CountsFromZero(nest[0]);
    forall x ensures InDimension(nest[0], x) <==> 1 <= x < 3 {
      RangeMembers(1, 3, 1, x);
    }
    TuplesExact(Extents(nest), [0]);
    TuplesExact(Extents(nest), [2]);
    RectangularCount(nest, [], [0]);
    RectangularCount(nest, [], [2]);
    assert InDimension(nest[0], [2][0]) && !InDimension(nest[0], [0][0]);
  }
}
