/** Reordering of a perfect rectangular nest: bounds move between the loops, and the uses of
    the induction variables are redirected through placeholder constants. */
module Reorder {
  import opened Arithmetic
  import opened Nests

  /** An operand of the body: an induction variable, or a placeholder while the pass runs. */
  datatype Operand = Iv(loop: nat) | Placeholder(k: nat)

  ghost predicate IsPermutation(orders: seq<nat>) {
    && (forall i :: 0 <= i < |orders| ==> orders[i] < |orders|)
    && (forall i, j :: 0 <= i < j < |orders| ==> orders[i] != orders[j])
    && (forall x: nat :: x < |orders| ==> x in orders)
  }

  /** The position of x in the permutation. */
  ghost function Position(orders: seq<nat>, x: nat): (i: nat)
    requires IsPermutation(orders) && x < |orders|
    ensures i < |orders| && orders[i] == x
  {
    assert x in orders;
    var i: nat :| i < |orders| && orders[i] == x;
    i
  }

  lemma PositionOf(orders: seq<nat>, i: nat)
    requires IsPermutation(orders) && i < |orders|
    ensures Position(orders, orders[i]) == i
  {
    var p := Position(orders, orders[i]);
    assert !(p < i) && !(i < p);
  }

  function Replaced(o: Operand, from: Operand, to: Operand): Operand {
    if o == from then to else o
  }

  ghost predicate AllReplaced(was: seq<Operand>, now: seq<Operand>, from: Operand, to: Operand) {
    |now| == |was| && forall j :: 0 <= j < |was| ==> now[j] == Replaced(was[j], from, to)
  }

  method ReplaceAllUses(uses: array<Operand>, from: Operand, to: Operand)
    modifies uses
    ensures AllReplaced(old(uses[..]), uses[..], from, to)
  {
    for i := 0 to uses.Length
      invariant forall j :: 0 <= j < i ==> uses[j] == Replaced(old(uses[j]), from, to)
      invariant forall j :: i <= j < uses.Length ==> uses[j] == old(uses[j])
    {
      if uses[i] == from {
        uses[i] := to;
      }
    }
  }

  /** The use of variable x while the first phase has handled k loops. */
  ghost function Detached(orders: seq<nat>, k: nat, x: nat): Operand
    requires IsPermutation(orders) && x < |orders|
  {
    if Position(orders, x) < k then Placeholder(Position(orders, x)) else Iv(x)
  }

  /** ... and while the second phase has handled k loops. */
  ghost function Attached(orders: seq<nat>, k: nat, x: nat): Operand
    requires IsPermutation(orders) && x < |orders|
  {
    var m := Position(orders, x);
    if Position(orders, m) < k then Iv(m) else Placeholder(m)
  }

  ghost predicate OnLoops(uses: seq<Operand>, depth: nat) {
    forall j :: 0 <= j < |uses| ==> uses[j].Iv? && uses[j].loop < depth
  }

  ghost predicate AllDetached(orders: seq<nat>, k: nat, was: seq<Operand>, now: seq<Operand>)
    requires IsPermutation(orders) && OnLoops(was, |orders|)
  {
    |now| == |was| && forall j :: 0 <= j < |was| ==> now[j] == Detached(orders, k, was[j].loop)
  }

  ghost predicate AllAttached(orders: seq<nat>, k: nat, was: seq<Operand>, now: seq<Operand>)
    requires IsPermutation(orders) && OnLoops(was, |orders|)
  {
    |now| == |was| && forall j :: 0 <= j < |was| ==> now[j] == Attached(orders, k, was[j].loop)
  }

  lemma DetachNext(orders: seq<nat>, k: nat, was: seq<Operand>, now: seq<Operand>, next: seq<Operand>)
    requires IsPermutation(orders) && OnLoops(was, |orders|) && k < |orders|
    requires AllDetached(orders, k, was, now) && AllReplaced(now, next, Iv(orders[k]), Placeholder(k))
    ensures AllDetached(orders, k + 1, was, next)
  {
    PositionOf(orders, k);
  }

  lemma AttachNext(orders: seq<nat>, k: nat, was: seq<Operand>, now: seq<Operand>, next: seq<Operand>)
    requires IsPermutation(orders) && OnLoops(was, |orders|) && k < |orders|
    requires AllAttached(orders, k, was, now)
    requires AllReplaced(now, next, Placeholder(orders[k]), Iv(orders[k]))
    ensures AllAttached(orders, k + 1, was, next)
  {
    PositionOf(orders, k);
  }

  /** Each use is now of the loop that has its variable's bounds. */
  ghost predicate Redirected(orders: seq<nat>, was: seq<Operand>, now: seq<Operand>) {
    && OnLoops(was, |orders|) && OnLoops(now, |orders|) && |now| == |was|
    && forall j :: 0 <= j < |was| ==> orders[now[j].loop] == was[j].loop
  }

  lemma AllPlaced(orders: seq<nat>, was: seq<Operand>, now: seq<Operand>)
    requires IsPermutation(orders) && OnLoops(was, |orders|)
    ensures AllDetached(orders, 0, was, was)
    ensures AllDetached(orders, |orders|, was, now) ==> AllAttached(orders, 0, was, now)
    ensures AllAttached(orders, |orders|, was, now) ==> Redirected(orders, was, now)
  {
  }

  /** The pass: loop i gets the bounds of loop orders[i] but keeps its step, and each use of a
      variable is a use of the loop that now has its bounds. */
  method ReorderLoops(loops: array<Loop>, uses: array<Operand>, orders: seq<nat>)
    requires loops.Length == |orders| && IsPermutation(orders) && Rectangular(loops[..])
    requires OnLoops(uses[..], |orders|)
    modifies loops, uses
    ensures loops[..] == Reordered(old(loops[..]), orders)
    ensures Redirected(orders, old(uses[..]), uses[..])
  {
    hide *;
    ghost var nest, was := loops[..], uses[..];
    AllPlaced(orders, was, was);
    var lowerBounds, upperBounds, indVars := DetachLoops(loops, uses, orders);
    AllPlaced(orders, was, uses[..]);
    AttachLoops(loops, uses, orders, lowerBounds, upperBounds, indVars, was);
    AllPlaced(orders, was, uses[..]);
  }

  method DetachLoops(loops: array<Loop>, uses: array<Operand>, orders: seq<nat>)
    returns (lowerBounds: seq<Bound>, upperBounds: seq<Bound>, indVars: seq<nat>)
    requires loops.Length == |orders| && IsPermutation(orders) && OnLoops(uses[..], |orders|)
    modifies uses
    ensures Bounded(loops[..], orders, lowerBounds, upperBounds) && indVars == orders
    ensures AllDetached(orders, |orders|, old(uses[..]), uses[..])
  {
    ghost var was := uses[..];
    AllPlaced(orders, was, was);
    lowerBounds, upperBounds, indVars := [], [], [];
    for k := 0 to |orders|
      invariant |lowerBounds| == |upperBounds| == k && indVars == orders[..k]
      invariant forall m :: 0 <= m < k ==> lowerBounds[m] == loops[orders[m]].lb && upperBounds[m] == loops[orders[m]].ub
      invariant AllDetached(orders, k, was, uses[..])
    {
      hide AllDetached, AllReplaced, OnLoops;
      var order := orders[k];
      lowerBounds := lowerBounds + [loops[order].lb];
      upperBounds := upperBounds + [loops[order].ub];
      indVars := indVars + [order];
      ghost var now := uses[..];
      ReplaceAllUses(uses, Iv(order), Placeholder(k));
      DetachNext(orders, k, was, now, uses[..]);
    }
  }

  method AttachLoops(loops: array<Loop>, uses: array<Operand>, orders: seq<nat>,
                     lowerBounds: seq<Bound>, upperBounds: seq<Bound>, indVars: seq<nat>, ghost was: seq<Operand>)
    requires loops.Length == |orders| && IsPermutation(orders) && OnLoops(was, |orders|)
    requires Bounded(loops[..], orders, lowerBounds, upperBounds) && indVars == orders
    requires AllAttached(orders, 0, was, uses[..])
    modifies loops, uses
    ensures loops[..] == Reordered(old(loops[..]), orders)
    ensures AllAttached(orders, |orders|, was, uses[..])
  {
    for i := 0 to |orders|
      invariant forall m :: 0 <= m < i ==>
                  loops[m] == Loop(lowerBounds[m], upperBounds[m], old(loops[m]).step)
      invariant forall m :: i <= m < |orders| ==> loops[m] == old(loops[m])
      invariant AllAttached(orders, i, was, uses[..])
    {
      hide AllAttached, AllReplaced, OnLoops, IsPermutation;
      loops[i] := loops[i].(lb := lowerBounds[i], ub := upperBounds[i]);
      ghost var now := uses[..];
      ReplaceAllUses(uses, Placeholder(orders[i]), Iv(indVars[i]));
      AttachNext(orders, i, was, now, uses[..]);
    }
  }

  /** The bounds of the loops, in the new order. */
  ghost predicate Bounded(loops: seq<Loop>, orders: seq<nat>, lowerBounds: seq<Bound>, upperBounds: seq<Bound>)
    requires |loops| == |orders| && IsPermutation(orders)
  {
    && |lowerBounds| == |upperBounds| == |orders|
    && forall m :: 0 <= m < |orders| ==> lowerBounds[m] == loops[orders[m]].lb && upperBounds[m] == loops[orders[m]].ub
  }

  function Reordered(loops: seq<Loop>, orders: seq<nat>): (nest: seq<Loop>)
    requires |loops| == |orders| && forall i :: 0 <= i < |orders| ==> orders[i] < |orders|
  {
    seq(|loops|, i requires 0 <= i < |loops| =>
      Loop(loops[orders[i]].lb, loops[orders[i]].ub, loops[i].step))
  }

  // ----- The instances -----

  /** The values of the original variables when the reordered loops stand at e. */
  ghost function Restored(orders: seq<nat>, e: seq<int>): (v: seq<int>)
    requires IsPermutation(orders)
    ensures |e| == |orders| ==> |v| == |e|
  {
    if |e| != |orders| then []
    else seq(|e|, x requires 0 <= x < |e| => e[Position(orders, x)])
  }

  ghost function Restore(orders: seq<nat>): seq<int> -> seq<int>
    requires IsPermutation(orders)
  {
    (e: seq<int>) => Restored(orders, e)
  }

  /** Where the reordered loops stand for given values of the original variables. */
  ghost function Permuted(orders: seq<nat>, v: seq<int>): seq<int>
    requires IsPermutation(orders) && |v| == |orders|
  {
    seq(|v|, i requires 0 <= i < |v| => v[orders[i]])
  }

  lemma RestoreInverse(orders: seq<nat>, e: seq<int>, v: seq<int>)
    requires IsPermutation(orders) && |e| == |v| == |orders|
    ensures Restored(orders, e) == v <==> e == Permuted(orders, v)
  {
    if Restored(orders, e) == v {
      forall i | 0 <= i < |e| ensures e[i] == v[orders[i]] {
        PositionOf(orders, i);
      }
    }
  }

  /** How often the reordered nest executes the instance for given values of the variables. */
  lemma ReorderedCount(loops: seq<Loop>, orders: seq<nat>, v: seq<int>)
    requires Rectangular(loops) && |orders| == |loops| && IsPermutation(orders)
    ensures Rectangular(Reordered(loops, orders)) && NestOk(Reordered(loops, orders))
    ensures Occurs(Run(Reordered(loops, orders), [], Restore(orders)), v)
         == if |v| == |loops| && InNest(Reordered(loops, orders), [], Permuted(orders, v)) then 1 else 0
  {
    var nest := Reordered(loops, orders);
    assert Rectangular(nest);
    RectangularCount(nest, [], v);
    RunMapped(nest, [], Vector, Restore(orders), Restore(orders));
    var vectors := Run(nest, [], Vector);
    RunSorted(nest, []);
    if |v| == |loops| {
      forall i | 0 <= i < |vectors| ensures Restore(orders)(vectors[i]) == v <==> vectors[i] == Permuted(orders, v) {
        RestoreInverse(orders, vectors[i], v);
      }
      OccursMapped(Restore(orders), vectors, Permuted(orders, v), v);
      RectangularCount(nest, [], Permuted(orders, v));
    } else {
      NeverMapped(Restore(orders), vectors, v);
    }
  }

  // ----- When the instances are preserved -----

  /** Two steps give the same values between two bounds. */
  predicate SameSteps(lo: int, hi: int, a: nat, b: nat) {
    a == b || (hi - lo <= a && hi - lo <= b)
  }

  /** Some loop runs empty, or every loop's step serves the bounds it receives. */
  predicate StepsAgree(loops: seq<Loop>, orders: seq<nat>)
    requires |loops| == |orders| && forall i :: 0 <= i < |orders| ==> orders[i] < |orders|
    requires forall i :: 0 <= i < |loops| ==> loops[i].lb.Fixed? && loops[i].ub.Fixed?
  {
    || (exists i :: 0 <= i < |loops| && loops[i].lb.value >= loops[i].ub.value)
    || (forall i :: 0 <= i < |loops| ==>
          SameSteps(loops[orders[i]].lb.value, loops[orders[i]].ub.value, loops[i].step, loops[orders[i]].step))
  }

  lemma SameStepsSameRange(lo: int, hi: int, a: nat, b: nat, x: int)
    requires a > 0 && b > 0 && SameSteps(lo, hi, a, b)
    ensures x in Range(lo, hi, a) <==> x in Range(lo, hi, b)
  {
    RangeMembers(lo, hi, a, x);
    RangeMembers(lo, hi, b, x);
    if lo <= x < hi && a != b {
      ModuloShift(x - lo, a);
      ModuloShift(x - lo, b);
    }
  }

  /** A value that only the smaller of two steps reaches. */
  lemma DifferentSteps(lo: int, hi: int, a: nat, b: nat) returns (x: int)
    requires 0 < a < b && a < hi - lo
    ensures x in Range(lo, hi, a) && x !in Range(lo, hi, b)
  {
    x := lo + a;
    RangeMembers(lo, hi, a, x);
    RangeMembers(lo, hi, b, x);
    ModuloShift(a, a);
    ModuloShift(a, b);
  }

  lemma LowerBoundIn(lo: int, hi: int, step: nat)
    requires step > 0 && lo < hi
    ensures lo in Range(lo, hi, step)
  {
  }

  lemma VectorsAgree(loops: seq<Loop>, orders: seq<nat>, v: seq<int>)
    requires Rectangular(loops) && |orders| == |loops| == |v| && IsPermutation(orders) && StepsAgree(loops, orders)
    ensures Rectangular(Reordered(loops, orders))
    ensures InNest(Reordered(loops, orders), [], Permuted(orders, v)) <==> InNest(loops, [], v)
  {
    var nest, e := Reordered(loops, orders), Permuted(orders, v);
    assert Rectangular(nest);
    if i :| 0 <= i < |loops| && loops[i].lb.value >= loops[i].ub.value {
      var m := Position(orders, i);
      assert !InDimension(loops[i], v[i]) && !InDimension(nest[m], e[m]);
    } else {
      forall i | 0 <= i < |loops| ensures InDimension(nest[i], e[i]) <==> InDimension(loops[orders[i]], v[orders[i]]) {
        var l := loops[orders[i]];
        SameStepsSameRange(l.lb.value, l.ub.value, loops[i].step, l.step, v[orders[i]]);
      }
      if InNest(nest, [], e) {
        forall x: nat | x < |loops| ensures InDimension(loops[x], v[x]) {
          assert orders[Position(orders, x)] == x;
        }
      }
    }
  }

  /** A vector that distinguishes the nests when some step does not serve its new bounds. */
  lemma VectorsDiffer(loops: seq<Loop>, orders: seq<nat>) returns (v: seq<int>)
    requires Rectangular(loops) && |orders| == |loops| && IsPermutation(orders) && !StepsAgree(loops, orders)
    ensures |v| == |loops| && Rectangular(Reordered(loops, orders))
    ensures InNest(Reordered(loops, orders), [], Permuted(orders, v)) != InNest(loops, [], v)
  {
    var nest := Reordered(loops, orders);
    assert Rectangular(nest);
    var i: nat :| i < |loops| && !SameSteps(loops[orders[i]].lb.value, loops[orders[i]].ub.value,
                                            loops[i].step, loops[orders[i]].step);
    var l := loops[orders[i]];
    var x;
    if loops[i].step < l.step {
      x := DifferentSteps(l.lb.value, l.ub.value, loops[i].step, l.step);
    } else {
      x := DifferentSteps(l.lb.value, l.ub.value, l.step, loops[i].step);
    }
    v := seq(|loops|, j requires 0 <= j < |loops| => if j == orders[i] then x else loops[j].lb.value);
    var e := Permuted(orders, v);
    forall j: nat | j < |loops| && j != orders[i] ensures InDimension(loops[j], v[j]) {
      LowerBoundIn(loops[j].lb.value, loops[j].ub.value, loops[j].step);
    }
    forall m: nat | m < |loops| && m != i ensures InDimension(nest[m], e[m]) {
      var k := loops[orders[m]];
      assert orders[m] != orders[i];
      LowerBoundIn(k.lb.value, k.ub.value, loops[m].step);
    }
    assert InDimension(nest[i], e[i]) != InDimension(loops[orders[i]], v[orders[i]]);
  }

  /** The reordered nest executes exactly the instances of the original one, each once and with
      the same value for every variable, if and only if every loop's step serves the bounds it
      receives (or the nest is empty). */
  lemma ReorderPreservesInstances(loops: seq<Loop>, orders: seq<nat>)
    requires Rectangular(loops) && |orders| == |loops| && IsPermutation(orders)
    ensures var nest := Reordered(loops, orders);
            && NestOk(loops) && NestOk(nest)
            && (multiset(Run(nest, [], Restore(orders))) == multiset(Run(loops, [], Vector))
                <==> StepsAgree(loops, orders))
  {
    var nest := Reordered(loops, orders);
    ReorderedCount(loops, orders, []);
    var moved, plain := Run(nest, [], Restore(orders)), Run(loops, [], Vector);
    RectangularCount(loops, [], []);
    if StepsAgree(loops, orders) {
      forall v ensures Occurs(moved, v) == Occurs(plain, v) {
        ReorderedCount(loops, orders, v);
        RectangularCount(loops, [], v);
        if |v| == |loops| {
          VectorsAgree(loops, orders, v);
        }
      }
      SameCounts(moved, plain);
    } else {
      var v := VectorsDiffer(loops, orders);
      ReorderedCount(loops, orders, v);
      RectangularCount(loops, [], v);
      assert Occurs(moved, v) != Occurs(plain, v);
    }
  }

  /** What a body with these operands sees when the loops stand at e. */
  function Seen(uses: seq<Operand>, e: seq<int>): seq<int> {
    seq(|uses|, j requires 0 <= j < |uses| =>
      if uses[j].Iv? && uses[j].loop < |e| then e[uses[j].loop] else 0)
  }

  function See(uses: seq<Operand>): seq<int> -> seq<int> {
    (e: seq<int>) => Seen(uses, e)
  }

  /** With equal steps, a body sees the same operand values, instance by instance, before the
      pass and after it. */
  lemma ReorderPreservesOperands(loops: seq<Loop>, orders: seq<nat>, uses: seq<Operand>, uses': seq<Operand>)
    requires Rectangular(loops) && |orders| == |loops| && IsPermutation(orders)
    requires StepsAgree(loops, orders)
    requires Redirected(orders, uses, uses')
    ensures var nest := Reordered(loops, orders);
            && NestOk(loops) && NestOk(nest)
            && multiset(Run(nest, [], See(uses'))) == multiset(Run(loops, [], See(uses)))
  {
    var nest := Reordered(loops, orders);
    ReorderPreservesInstances(loops, orders);
    forall e: seq<int> | |e| == |nest| ensures See(uses')(e) == See(uses)(Restore(orders)(e)) {
      SeesSame(orders, uses, uses', e);
    }
    hide Reordered, Redirected, StepsAgree, IsPermutation, Rectangular, Restore, See, Map, Run;
    RunMapped(nest, [], Restore(orders), See(uses), See(uses'));
    RunMapped(loops, [], Vector, See(uses), See(uses));
    SameMapped(See(uses), Run(nest, [], Restore(orders)), Run(loops, [], Vector));
  }

  lemma SeesSame(orders: seq<nat>, uses: seq<Operand>, uses': seq<Operand>, e: seq<int>)
    requires IsPermutation(orders) && |e| == |orders| && Redirected(orders, uses, uses')
    ensures Seen(uses', e) == Seen(uses, Restored(orders, e))
  {
    forall j | 0 <= j < |uses| ensures Seen(uses', e)[j] == Seen(uses, Restored(orders, e))[j] {
      PositionOf(orders, uses'[j].loop);
    }
  }

  /** ... so a body whose instances commute ends in the same state. */
  lemma ReorderPreservesState<S(!new)>(s: S, loops: seq<Loop>, orders: seq<nat>, uses: seq<Operand>,
                                       uses': seq<Operand>, apply: (S, seq<int>) -> S)
    requires Rectangular(loops) && |orders| == |loops| && IsPermutation(orders)
    requires StepsAgree(loops, orders) && Redirected(orders, uses, uses') && Commute(apply)
    ensures var nest := Reordered(loops, orders);
            && NestOk(loops) && NestOk(nest)
            && Execute(s, Run(nest, [], See(uses')), apply) == Execute(s, Run(loops, [], See(uses)), apply)
  {
    ReorderPreservesOperands(loops, orders, uses, uses');
    hide *;
    SameInstances(s, Run(Reordered(loops, orders), [], See(uses')), Run(loops, [], See(uses)), apply);
  }

  /** Swapping a loop of step 1 and one of step 2 loses instances. */
  lemma UnequalSteps()
    ensures var loops := [Loop(Fixed(0), Fixed(4), 1), Loop(Fixed(0), Fixed(4), 2)];
            Rectangular(loops) && IsPermutation([1, 0]) && !StepsAgree(loops, [1, 0])
  {
    var orders := [1, 0];
    assert orders[0] == 1 && orders[1] == 0;
    assert !SameSteps(0, 4, 1, 2);
    var loops := [Loop(Fixed(0), Fixed(4), 1), Loop(Fixed(0), Fixed(4), 2)];
    assert loops[orders[0]].step == 2 && loops[0].step == 1;
  }
}
