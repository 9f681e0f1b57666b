/** Tiling of a perfect rectangular nest: tile loops around point loops, and the adjustment
    of tile sizes to divisors of the trip counts. */
module Tiling {
  import opened Arithmetic
  import opened Nests

  /** What the compiler knows about a trip count. */
  datatype TripCount = Unknown | Constant(n: nat)

  /** A loop to be tiled has bounds from outside the nest and step 1. */
  predicate Tileable(l: Loop) {
    l.lb.Fixed? && l.ub.Fixed? && l.step == 1
  }

  function Trips(l: Loop): nat
    requires Tileable(l)
  {
    if l.lb.value < l.ub.value then l.ub.value - l.lb.value else 0
  }

  /** What is known is right: a constant is the trip count, and the divisor divides it. */
  ghost predicate Informed(orig: seq<Loop>, sizes: seq<nat>, trips: seq<TripCount>, divs: seq<nat>) {
    && |orig| == |sizes| == |trips| == |divs| > 0
    && (forall i :: 0 <= i < |orig| ==> Tileable(orig[i]) && sizes[i] > 0 && divs[i] > 0)
    && (forall i :: 0 <= i < |orig| ==> trips[i].Constant? ==> trips[i].n == Trips(orig[i]))
    && (forall i :: 0 <= i < |orig| ==> Trips(orig[i]) % divs[i] == 0)
  }

  /** The upper bound of point loop i, by the three cases of the source. */
  function PointUpper(i: nat, ub: int, size: nat, trip: TripCount, div: nat): Bound
    requires size > 0
  {
    if trip.Constant? && trip.n < size then Shifted(i, trip.n)
    else if div % size != 0 then Least(i, size, ub)
    else Shifted(i, size)
  }

  function TiledNest(orig: seq<Loop>, sizes: seq<nat>, trips: seq<TripCount>, divs: seq<nat>): (nest: seq<Loop>)
    requires |orig| == |sizes| == |trips| == |divs|
    requires forall i :: 0 <= i < |orig| ==> Tileable(orig[i]) && sizes[i] > 0
  {
    var w := |orig|;
    seq(2 * w, j requires 0 <= j < 2 * w =>
      if j < w then TileLoop(orig[j], sizes[j]) else PointLoop(j - w, orig[j - w], sizes[j - w], trips[j - w], divs[j - w]))
  }

  function TileLoop(l: Loop, size: nat): Loop {
    Loop(l.lb, l.ub, size)
  }

  function PointLoop(i: nat, l: Loop, size: nat, trip: TripCount, div: nat): Loop
    requires Tileable(l) && size > 0
  {
    Loop(Shifted(i, 0), PointUpper(i, l.ub.value, size, trip, div), 1)
  }

  /** A tile loop keeps the bounds and steps by the tile size; a point loop starts at the tile
      and ends a trip count, a tile size, or the smaller of that and the upper bound further. */
  lemma TiledBounds(orig: seq<Loop>, sizes: seq<nat>, trips: seq<TripCount>, divs: seq<nat>, i: nat)
    requires Informed(orig, sizes, trips, divs) && i < |orig|
    ensures var nest, w := TiledNest(orig, sizes, trips, divs), |orig|;
            && |nest| == 2 * w
            && nest[i] == Loop(orig[i].lb, orig[i].ub, sizes[i])
            && nest[w + i].lb == Shifted(i, 0) && nest[w + i].step == 1
            && (trips[i].Constant? && trips[i].n < sizes[i] ==> nest[w + i].ub == Shifted(i, trips[i].n))
            && (!(trips[i].Constant? && trips[i].n < sizes[i]) ==>
                  nest[w + i].ub == if divs[i] % sizes[i] == 0 then Shifted(i, sizes[i])
                                    else Least(i, sizes[i], orig[i].ub.value))
  {
    var w := |orig|;
    assert TiledNest(orig, sizes, trips, divs)[w + i] == PointLoop(i, orig[i], sizes[i], trips[i], divs[i]);
  }

  /** Set the bounds of the new loops in place: first all tile loops, then all point loops. */
  method ConstructTiledIndexSet(orig: seq<Loop>, newLoops: array<Loop>, sizes: seq<nat>,
                                trips: seq<TripCount>, divs: seq<nat>)
    requires Informed(orig, sizes, trips, divs)
    requires newLoops.Length == 2 * |orig|
    requires forall j :: 0 <= j < newLoops.Length ==> newLoops[j].step == 1
    modifies newLoops
    ensures newLoops[..] == TiledNest(orig, sizes, trips, divs)
  {
    var width := |orig|;
    ghost var nest := TiledNest(orig, sizes, trips, divs);
    for i := 0 to width
      invariant forall j :: 0 <= j < i ==> newLoops[j] == nest[j]
      invariant forall j :: i <= j < 2 * width ==> newLoops[j].step == 1
    {
      newLoops[i] := Loop(orig[i].lb, orig[i].ub, sizes[i]);
    }
    for i := 0 to width
      invariant forall j :: 0 <= j < width + i ==> newLoops[j] == nest[j]
      invariant forall j :: width + i <= j < 2 * width ==> newLoops[j].step == 1
    {
      var lower := Shifted(i, 0);
      var upper;
      if trips[i].Constant? && trips[i].n < sizes[i] {
        upper := Shifted(i, trips[i].n);
      } else if divs[i] % sizes[i] != 0 {
        upper := Least(i, sizes[i], orig[i].ub.value);
      } else {
        upper := Shifted(i, sizes[i]);
      }
      newLoops[width + i] := newLoops[width + i].(lb := lower, ub := upper);
      assert newLoops[width + i] == PointLoop(i, orig[i], sizes[i], trips[i], divs[i]) == nest[width + i];
    }
  }

  // ----- One dimension -----

  function Min(a: int, b: int): int {
    if a < b then a else b
  }

  /** In all three cases the tile of a tile loop's value t is [t, min(t + size, ub)). */
  lemma TileIsClipped(i: nat, l: Loop, size: nat, trip: TripCount, div: nat, env: seq<int>)
    requires Tileable(l) && size > 0 && div > 0 && i < |env|
    requires trip.Constant? ==> trip.n == Trips(l)
    requires Trips(l) % div == 0
    requires env[i] in Range(l.lb.value, l.ub.value, size)
    ensures var b := PointUpper(i, l.ub.value, size, trip, div);
            BoundOk(b, |env|) && Eval(b, env) == Min(env[i] + size, l.ub.value)
  {
    var lo, hi, t := l.lb.value, l.ub.value, env[i];
    RangeMembers(lo, hi, size, t);
    if trip.Constant? && trip.n < size {
      SmallRest(t - lo, size);
    } else if div % size == 0 {
      DivisorOfDivisor(hi - lo, div, size);
      WholeSteps(t - lo, hi - lo, size);
    }
  }

  lemma SmallRest(a: nat, n: nat)
    requires a < n && a % n == 0
    ensures a == 0
  {
  }

  /** Exactly one tile of a dimension holds a given value of it. */
  lemma {:induction false} OneTile(lo: int, hi: int, size: nat, v: int, good: int -> bool)
    requires size > 0 && forall t :: good(t) <==> t <= v < Min(t + size, hi)
    ensures Passing(Range(lo, hi, size), good) == if lo <= v < hi then 1 else 0
    decreases hi - lo
  {
    if lo < hi {
      OneTile(lo + size, hi, size, v, good);
    }
  }

  // ----- All dimensions -----

  /** The part of an index vector the body sees: the point loops stand for the original ones. */
  function PointPart(w: nat, e: seq<int>): seq<int> {
    if w <= |e| then e[w..] else []
  }

  function PointBody(w: nat): seq<int> -> seq<int> {
    (e: seq<int>) => PointPart(w, e)
  }

  /** Whether dimension i of instance v can still be met after the loops in `env`. */
  predicate Meets(orig: seq<Loop>, sizes: seq<nat>, i: nat, env: seq<int>, x: int)
    requires i < |orig| == |sizes| && Tileable(orig[i])
  {
    var lo, hi := orig[i].lb.value, orig[i].ub.value;
    if |env| <= i then lo <= x < hi
    else if |env| <= |orig| + i then env[i] <= x < Min(env[i] + sizes[i], hi)
    else x == env[|orig| + i]
  }

  ghost predicate AllTileable(orig: seq<Loop>, sizes: seq<nat>) {
    |orig| == |sizes| > 0 && forall i :: 0 <= i < |orig| ==> Tileable(orig[i]) && sizes[i] > 0
  }

  ghost predicate Matches(orig: seq<Loop>, sizes: seq<nat>, env: seq<int>, v: seq<int>)
    requires AllTileable(orig, sizes)
  {
    |v| == |orig| && forall i :: 0 <= i < |orig| ==> Meets(orig, sizes, i, env, v[i])
  }

  ghost predicate MatchesElsewhere(orig: seq<Loop>, sizes: seq<nat>, env: seq<int>, v: seq<int>, d: nat)
    requires AllTileable(orig, sizes)
  {
    |v| == |orig| && forall i :: 0 <= i < |orig| && i != d ==> Meets(orig, sizes, i, env, v[i])
  }

  /** One more loop value only concerns its own dimension. */
  lemma MatchesStep(orig: seq<Loop>, sizes: seq<nat>, env: seq<int>, v: seq<int>, d: nat)
    requires AllTileable(orig, sizes) && |env| < 2 * |orig|
    requires d == if |env| < |orig| then |env| else |env| - |orig|
    ensures Matches(orig, sizes, env, v) <==>
            MatchesElsewhere(orig, sizes, env, v, d) && Meets(orig, sizes, d, env, v[d])
    ensures forall y :: Matches(orig, sizes, env + [y], v) <==>
            MatchesElsewhere(orig, sizes, env, v, d) && Meets(orig, sizes, d, env + [y], v[d])
  {
    forall y, i: nat | i < |orig| && i != d && |v| == |orig|
      ensures Meets(orig, sizes, i, env + [y], v[i]) <==> Meets(orig, sizes, i, env, v[i])
    {
    }
  }

  /** The tile loops in `env` have values their ranges give them. */
  ghost predicate OnTiles(orig: seq<Loop>, sizes: seq<nat>, env: seq<int>)
    requires AllTileable(orig, sizes)
  {
    forall i :: 0 <= i < |orig| && i < |env| ==> env[i] in Range(orig[i].lb.value, orig[i].ub.value, sizes[i])
  }

  lemma OnTilesStep(orig: seq<Loop>, sizes: seq<nat>, env: seq<int>, values: seq<int>, y: int)
    requires AllTileable(orig, sizes) && OnTiles(orig, sizes, env) && y in values
    requires |env| < |orig| ==> values == Range(orig[|env|].lb.value, orig[|env|].ub.value, sizes[|env|])
    ensures OnTiles(orig, sizes, env + [y])
  {
  }

  lemma TiledOk(orig: seq<Loop>, sizes: seq<nat>, trips: seq<TripCount>, divs: seq<nat>)
    requires Informed(orig, sizes, trips, divs)
    ensures AllTileable(orig, sizes) && NestOk(TiledNest(orig, sizes, trips, divs))
    ensures |TiledNest(orig, sizes, trips, divs)| == 2 * |orig|
  {
    var w, nest := |orig|, TiledNest(orig, sizes, trips, divs);
    forall i: nat | i < 2 * w ensures BoundOk(nest[i].lb, i) && BoundOk(nest[i].ub, i) && nest[i].step > 0 {
      if i >= w {
        assert nest[i] == PointLoop(i - w, orig[i - w], sizes[i - w], trips[i - w], divs[i - w]);
      }
    }
  }

  /** The values of the next loop of the tiled nest. */
  lemma TiledValues(orig: seq<Loop>, sizes: seq<nat>, trips: seq<TripCount>, divs: seq<nat>, env: seq<int>)
    requires Informed(orig, sizes, trips, divs) && AllTileable(orig, sizes)
    requires NestOk(TiledNest(orig, sizes, trips, divs)) && |env| < 2 * |orig| && OnTiles(orig, sizes, env)
    ensures var w, d := |orig|, |env|;
            Values(TiledNest(orig, sizes, trips, divs), env) ==
            if d < w then Range(orig[d].lb.value, orig[d].ub.value, sizes[d])
            else Range(env[d - w], Min(env[d - w] + sizes[d - w], orig[d - w].ub.value), 1)
  {
    var w, d := |orig|, |env|;
    var nest := TiledNest(orig, sizes, trips, divs);
    assert Values(nest, env) == Range(Eval(nest[d].lb, env), Eval(nest[d].ub, env), nest[d].step);
    if d < w {
      assert nest[d] == TileLoop(orig[d], sizes[d]);
    } else {
      var i := d - w;
      assert nest[d] == PointLoop(i, orig[i], sizes[i], trips[i], divs[i]);
      assert env[i] in Range(orig[i].lb.value, orig[i].ub.value, sizes[i]);
      assert Trips(orig[i]) % divs[i] == 0 && (trips[i].Constant? ==> trips[i].n == Trips(orig[i]));
      hide Range, TiledNest, Values, NestOk, Informed, OnTiles, AllTileable, PointUpper;
      TileIsClipped(i, orig[i], sizes[i], trips[i], divs[i], env);
    }
  }

  lemma {:induction false} TiledCount(orig: seq<Loop>, sizes: seq<nat>, trips: seq<TripCount>, divs: seq<nat>,
                                      env: seq<int>, v: seq<int>)
    requires Informed(orig, sizes, trips, divs) && |env| <= 2 * |orig|
    requires AllTileable(orig, sizes) && OnTiles(orig, sizes, env)
    ensures NestOk(TiledNest(orig, sizes, trips, divs))
    ensures |TiledNest(orig, sizes, trips, divs)| == 2 * |orig|
    ensures Occurs(Run(TiledNest(orig, sizes, trips, divs), env, PointBody(|orig|)), v)
         == if Matches(orig, sizes, env, v) then 1 else 0
    decreases 2 * |orig| - |env|
  {
    TiledOk(orig, sizes, trips, divs);
    var nest, body := TiledNest(orig, sizes, trips, divs), PointBody(|orig|);
    if |env| == 2 * |orig| {
      FullVector(orig, sizes, env, v);
    } else {
      hide *;
      var values := Values(nest, env);
      TiledValues(orig, sizes, trips, divs, env);
      var good := GoodValues(orig, sizes, env, v, values);
      ValuesOnTiles(orig, sizes, trips, divs, env);
      RunUnfolds(nest, env, body);
      forall k | 0 <= k < |values|
        ensures Occurs(Run(nest, env + [values[k]], body), v) == if good(values[k]) then 1 else 0
      {
        TiledCount(orig, sizes, trips, divs, env + [values[k]], v);
      }
      OccursOver(nest, env, values, body, v, good);
    }
  }

  lemma ValuesOnTiles(orig: seq<Loop>, sizes: seq<nat>, trips: seq<TripCount>, divs: seq<nat>, env: seq<int>)
    requires Informed(orig, sizes, trips, divs) && AllTileable(orig, sizes)
    requires NestOk(TiledNest(orig, sizes, trips, divs)) && |env| < 2 * |orig| && OnTiles(orig, sizes, env)
    ensures var values := Values(TiledNest(orig, sizes, trips, divs), env);
            forall k :: 0 <= k < |values| ==> OnTiles(orig, sizes, env + [values[k]])
  {
    TiledValues(orig, sizes, trips, divs, env);
    var values := Values(TiledNest(orig, sizes, trips, divs), env);
    hide Informed, NestOk, TiledNest, Values, OnTiles;
    forall k | 0 <= k < |values| ensures OnTiles(orig, sizes, env + [values[k]]) {
      OnTilesStep(orig, sizes, env, values, values[k]);
    }
  }

  /** The values of the next loop that lead to v: one, if v is below env, and none otherwise. */
  lemma GoodValues(orig: seq<Loop>, sizes: seq<nat>, env: seq<int>, v: seq<int>, values: seq<int>)
    returns (good: int -> bool)
    requires AllTileable(orig, sizes) && |env| < 2 * |orig|
    requires var w, d := |orig|, |env|;
             values == if d < w then Range(orig[d].lb.value, orig[d].ub.value, sizes[d])
                       else Range(env[d - w], Min(env[d - w] + sizes[d - w], orig[d - w].ub.value), 1)
    ensures forall k :: 0 <= k < |values| ==> (good(values[k]) <==> Matches(orig, sizes, env + [values[k]], v))
    ensures Passing(values, good) == if Matches(orig, sizes, env, v) then 1 else 0
  {
    var d := if |env| < |orig| then |env| else |env| - |orig|;
    hide *;
    if MatchesElsewhere(orig, sizes, env, v, d) {
      good := GoodBelow(orig, sizes, env, v, d, values);
    } else {
      good := y => false;
      NoneGood(orig, sizes, env, v, d, values);
      PassingNone(values, good);
    }
  }

  lemma NoneGood(orig: seq<Loop>, sizes: seq<nat>, env: seq<int>, v: seq<int>, d: nat, values: seq<int>)
    requires AllTileable(orig, sizes) && |env| < 2 * |orig|
    requires d == (if |env| < |orig| then |env| else |env| - |orig|) && !MatchesElsewhere(orig, sizes, env, v, d)
    ensures !Matches(orig, sizes, env, v)
    ensures forall k :: 0 <= k < |values| ==> !Matches(orig, sizes, env + [values[k]], v)
  {
    MatchesStep(orig, sizes, env, v, d);
    hide Matches, MatchesElsewhere;
  }

  lemma GoodBelow(orig: seq<Loop>, sizes: seq<nat>, env: seq<int>, v: seq<int>, d: nat, values: seq<int>)
    returns (good: int -> bool)
    requires AllTileable(orig, sizes) && |env| < 2 * |orig|
    requires d == (if |env| < |orig| then |env| else |env| - |orig|) && MatchesElsewhere(orig, sizes, env, v, d)
    requires values == if |env| < |orig| then Range(orig[d].lb.value, orig[d].ub.value, sizes[d])
                       else Range(env[d], Min(env[d] + sizes[d], orig[d].ub.value), 1)
    ensures forall k :: 0 <= k < |values| ==> (good(values[k]) <==> Matches(orig, sizes, env + [values[k]], v))
    ensures Passing(values, good) == if Matches(orig, sizes, env, v) then 1 else 0
  {
    assert |v| == |orig|;
    MatchesStep(orig, sizes, env, v, d);
    assert d < |orig| == |sizes| && Tileable(orig[d]) && sizes[d] > 0;
    hide Matches, MatchesElsewhere, Meets, Range, AllTileable, Passing, Tileable;
    good := y => Meets(orig, sizes, d, env + [y], v[d]);
    CountDimension(orig, sizes, env, d, v[d], values, good);
  }

  lemma FullVector(orig: seq<Loop>, sizes: seq<nat>, env: seq<int>, v: seq<int>)
    requires AllTileable(orig, sizes) && |env| == 2 * |orig|
    ensures Occurs([PointPart(|orig|, env)], v) == if Matches(orig, sizes, env, v) then 1 else 0
  {
    var e := env[|orig|..];
    if Matches(orig, sizes, env, v) {
      assert forall i :: 0 <= i < |v| ==> Meets(orig, sizes, i, env, v[i]) && v[i] == e[i];
      assert v == e;
    }
    assert v == e ==> Matches(orig, sizes, env, v);
  }

  lemma CountDimension(orig: seq<Loop>, sizes: seq<nat>, env: seq<int>, d: nat, x: int, values: seq<int>, good: int -> bool)
    requires AllTileable(orig, sizes) && |env| < 2 * |orig|
    requires d == if |env| < |orig| then |env| else |env| - |orig|
    requires values == if |env| < |orig| then Range(orig[d].lb.value, orig[d].ub.value, sizes[d])
                       else Range(env[d], Min(env[d] + sizes[d], orig[d].ub.value), 1)
    requires forall y :: good(y) <==> Meets(orig, sizes, d, env + [y], x)
    ensures Passing(values, good) == if Meets(orig, sizes, d, env, x) then 1 else 0
  {
    if |env| < |orig| {
      assert forall y :: (env + [y])[d] == y;
      OneTile(orig[d].lb.value, orig[d].ub.value, sizes[d], x, good);
    } else {
      assert forall y :: (env + [y])[|orig| + d] == y;
      var hi := Min(env[d] + sizes[d], orig[d].ub.value);
      PassingEqual(env[d], hi, 1, x, good);
      RangeMembers(env[d], hi, 1, x);
    }
  }

  /** Tiling preserves the body instances, in any number of dimensions and in all three cases
      of the upper bound: the tiled nest executes every vector of the original nest exactly
      once, and nothing else. */
  lemma TilingPreservesInstances(orig: seq<Loop>, sizes: seq<nat>, trips: seq<TripCount>, divs: seq<nat>)
    requires Informed(orig, sizes, trips, divs)
    ensures var nest := TiledNest(orig, sizes, trips, divs);
            && NestOk(orig) && NestOk(nest)
            && multiset(Run(nest, [], PointBody(|orig|))) == multiset(Run(orig, [], Vector))
            && AtMostOnce(Run(orig, [], Vector))
  {
    TiledOk(orig, sizes, trips, divs);
    var nest := TiledNest(orig, sizes, trips, divs);
    assert Rectangular(orig);
    var tiled, plain := Run(nest, [], PointBody(|orig|)), Run(orig, [], Vector);
    forall v ensures Occurs(tiled, v) == Occurs(plain, v) && Occurs(plain, v) <= 1 {
      TiledCount(orig, sizes, trips, divs, [], v);
      RectangularCount(orig, [], v);
      SameVectors(orig, sizes, v);
    }
    SameCounts(tiled, plain);
  }

  lemma SameVectors(orig: seq<Loop>, sizes: seq<nat>, v: seq<int>)
    requires AllTileable(orig, sizes) && Rectangular(orig)
    ensures Matches(orig, sizes, [], v) <==> InNest(orig, [], v)
  {
    if |v| == |orig| {
      forall i: nat | i < |orig| ensures InDimension(orig[i], v[i]) <==> Meets(orig, sizes, i, [], v[i]) {
        RangeMembers(orig[i].lb.value, orig[i].ub.value, 1, v[i]);
      }
    }
  }

  /** A body whose instances commute ends in the same state after tiling. */
  lemma TilingPreservesState<S(!new)>(orig: seq<Loop>, sizes: seq<nat>, trips: seq<TripCount>, divs: seq<nat>,
                                      s: S, apply: (S, seq<int>) -> S)
    requires Informed(orig, sizes, trips, divs) && Commute(apply)
    ensures var nest := TiledNest(orig, sizes, trips, divs);
            && NestOk(orig) && NestOk(nest)
            && Execute(s, Run(nest, [], PointBody(|orig|)), apply) == Execute(s, Run(orig, [], Vector), apply)
  {
    TilingPreservesInstances(orig, sizes, trips, divs);
    SameInstances(s, Run(TiledNest(orig, sizes, trips, divs), [], PointBody(|orig|)),
                  Run(orig, [], Vector), apply);
  }

  // ----- Adjusting tile sizes -----

  /** The size an adjustment starts from: at most half of a trip count above one. */
  function Capped(n: nat, size: nat): nat {
    if n > 1 && size > n / 2 then n / 2 else size
  }

  /** r is the greatest divisor of n that is at most the cap. */
  ghost predicate IsGreatestDivisor(r: nat, n: nat, cap: nat) {
    0 < r <= cap && n % r == 0 && forall k :: r < k <= cap ==> n % k != 0
  }

  /** In plain terms: no larger than asked for, no larger than half of a trip count above one,
      a divisor of the trip count, and the greatest such number. */
  lemma AdjustedSize(r: nat, n: nat, size: nat)
    requires size > 0
    ensures IsGreatestDivisor(r, n, Capped(n, size)) <==>
      && 0 < r <= size && (n > 1 ==> r <= n / 2) && n % r == 0
      && forall k :: r < k <= size && (n > 1 ==> k <= n / 2) ==> n % k != 0
  {
    if n > 1 && size > n / 2 {
      assert Capped(n, size) == n / 2;
    }
  }

  /** Reduce every tile size in place to a divisor of its trip count, where that is known. */
  method AdjustToDivisors(trips: seq<TripCount>, tileSizes: array<nat>)
    requires tileSizes.Length == |trips|
    requires forall i :: 0 <= i < |trips| ==> tileSizes[i] > 0
    modifies tileSizes
    ensures forall i :: 0 <= i < |trips| ==>
              if trips[i].Constant?
              then IsGreatestDivisor(tileSizes[i], trips[i].n, Capped(trips[i].n, old(tileSizes[i])))
              else tileSizes[i] == old(tileSizes[i])
  {
    for i := 0 to |trips|
      invariant forall j :: 0 <= j < i ==>
                  if trips[j].Constant?
                  then IsGreatestDivisor(tileSizes[j], trips[j].n, Capped(trips[j].n, old(tileSizes[j])))
                  else tileSizes[j] == old(tileSizes[j])
      invariant forall j :: i <= j < |trips| ==> tileSizes[j] == old(tileSizes[j])
    {
      if trips[i].Constant? {
        var n := trips[i].n;
        if n > 1 && tileSizes[i] > n / 2 {
          tileSizes[i] := n / 2;
        }
        ghost var cap, earlier := Capped(n, old(tileSizes[i])), tileSizes[..];
        while n % tileSizes[i] != 0
          invariant 0 < tileSizes[i] <= cap
          invariant forall k :: tileSizes[i] < k <= cap ==> n % k != 0
          invariant forall j :: 0 <= j < |trips| && j != i ==> tileSizes[j] == earlier[j]
          decreases tileSizes[i]
        {
          tileSizes[i] := tileSizes[i] - 1;
        }
      }
    }
  }

  /** After the adjustment no upper bound needs a minimum. */
  lemma AdjustedNeedsNoMin(i: nat, l: Loop, size: nat, adjusted: nat)
    requires Tileable(l) && size > 0
    requires IsGreatestDivisor(adjusted, Trips(l), Capped(Trips(l), size))
    ensures adjusted > 0 && PointUpper(i, l.ub.value, adjusted, Constant(Trips(l)), Trips(l)).Shifted?
  {
  }
}
