/** Perfect loop nests and the instances of their body they execute, in order. */
module Nests {
  import opened Arithmetic

  /** A loop bound: a value known outside the nest, or one derived from the induction
      variable of an outer loop of the nest. */
  datatype Bound =
    | Fixed(value: int)
    | Shifted(loop: nat, plus: nat)              // induction variable + plus
    | Least(loop: nat, plus: nat, limit: int)     // the lesser of that and a fixed value

  datatype Loop = Loop(lb: Bound, ub: Bound, step: nat)

  predicate BoundOk(b: Bound, depth: nat) {
    !b.Fixed? ==> b.loop < depth
  }

  /** Every bound only uses loops further out, and every loop moves. */
  ghost predicate NestOk(nest: seq<Loop>) {
    forall i: nat :: i < |nest| ==> BoundOk(nest[i].lb, i) && BoundOk(nest[i].ub, i) && nest[i].step > 0
  }

  function Eval(b: Bound, env: seq<int>): int
    requires BoundOk(b, |env|)
  {
    match b
    case Fixed(value) => value
    case Shifted(loop, plus) => env[loop] + plus
    case Least(loop, plus, limit) => if env[loop] + plus < limit then env[loop] + plus else limit
  }

  /** The values of an induction variable. */
  function Range(lo: int, hi: int, step: nat): seq<int>
    requires step > 0
    decreases hi - lo
  {
    if lo >= hi then [] else [lo] + Range(lo + step, hi, step)
  }

  function Values(nest: seq<Loop>, env: seq<int>): seq<int>
    requires NestOk(nest) && |env| < |nest|
  {
    var l := nest[|env|];
    Range(Eval(l.lb, env), Eval(l.ub, env), l.step)
  }

  /** The body instances executed by the loops inside those `env` gives values for, where
      `body` names the instance executed for a vector of induction variables. */
  function Run<T>(nest: seq<Loop>, env: seq<int>, body: seq<int> -> T): seq<T>
    requires NestOk(nest) && |env| <= |nest|
    decreases |nest| - |env|, 1, 0
  {
    if |env| == |nest| then [body(env)] else RunOver(nest, env, Values(nest, env), body)
  }

  function RunOver<T>(nest: seq<Loop>, env: seq<int>, values: seq<int>, body: seq<int> -> T): seq<T>
    requires NestOk(nest) && |env| < |nest|
    decreases |nest| - |env|, 0, |values|
  {
    if values == [] then []
    else Run(nest, env + [values[0]], body) + RunOver(nest, env, values[1..], body)
  }

  lemma RunUnfolds<T>(nest: seq<Loop>, env: seq<int>, body: seq<int> -> T)
    requires NestOk(nest) && |env| < |nest|
    ensures Run(nest, env, body) == RunOver(nest, env, Values(nest, env), body)
  {
  }

  /** The body that is only identified by its index vector. */
  function Vector(e: seq<int>): seq<int> {
    e
  }

  function Occurs<T(==)>(s: seq<T>, x: T): nat {
    multiset(s)[x]
  }

  // ----- Ranges -----

  lemma {:induction false} RangeMembers(lo: int, hi: int, step: nat, x: int)
    requires step > 0
    ensures x in Range(lo, hi, step) <==> lo <= x < hi && (x - lo) % step == 0
    decreases hi - lo
  {
    if lo < hi {
      RangeMembers(lo + step, hi, step, x);
      ModuloShift(x - lo, step);
    }
  }

  lemma {:induction false} RangeIncreasing(lo: int, hi: int, step: nat)
    requires step > 0
    ensures forall i, j :: 0 <= i < j < |Range(lo, hi, step)| ==> Range(lo, hi, step)[i] < Range(lo, hi, step)[j]
    ensures forall x :: x in Range(lo, hi, step) ==> lo <= x < hi
    decreases hi - lo
  {
    if lo < hi {
      RangeIncreasing(lo + step, hi, step);
      var rest := Range(lo + step, hi, step);
      assert forall i :: 0 <= i < |rest| ==> rest[i] in rest;
    }
  }

  // ----- Counting instances -----

  /** How many of the values pass a test. */
  function Passing(values: seq<int>, good: int -> bool): nat {
    if values == [] then 0 else (if good(values[0]) then 1 else 0) + Passing(values[1..], good)
  }

  /** If the instance x comes up once below exactly the values that pass the test, it comes up
      as often as values pass. */
  lemma {:induction false} OccursOver<T>(nest: seq<Loop>, env: seq<int>, values: seq<int>, body: seq<int> -> T,
                                         x: T, good: int -> bool)
    requires NestOk(nest) && |env| < |nest|
    requires forall k :: 0 <= k < |values| ==>
      Occurs(Run(nest, env + [values[k]], body), x) == if good(values[k]) then 1 else 0
    ensures Occurs(RunOver(nest, env, values, body), x) == Passing(values, good)
    decreases |values|
  {
    if values != [] {
      assert values[0] == values[0..][0];
      OccursOver(nest, env, values[1..], body, x, good);
    }
  }

  lemma {:induction false} PassingNone(values: seq<int>, good: int -> bool)
    requires forall k :: 0 <= k < |values| ==> !good(values[k])
    ensures Passing(values, good) == 0
  {
    if values != [] {
      PassingNone(values[1..], good);
    }
  }

  /** One value of a range equals a given one, if it is a member. */
  lemma {:induction false} PassingEqual(lo: int, hi: int, step: nat, v: int, good: int -> bool)
    requires step > 0 && forall y :: good(y) <==> y == v
    ensures Passing(Range(lo, hi, step), good) == if v in Range(lo, hi, step) then 1 else 0
    decreases hi - lo
  {
    if lo < hi {
      PassingEqual(lo + step, hi, step, v, good);
      RangeIncreasing(lo + step, hi, step);
    }
  }

  // ----- Rectangular nests -----

  ghost predicate Rectangular(nest: seq<Loop>) {
    forall i :: 0 <= i < |nest| ==> nest[i].lb.Fixed? && nest[i].ub.Fixed? && nest[i].step > 0
  }

  predicate InDimension(l: Loop, x: int)
    requires l.lb.Fixed? && l.ub.Fixed? && l.step > 0
  {
    x in Range(l.lb.value, l.ub.value, l.step)
  }

  /** v is a vector of the nest, and starts with `env`. */
  ghost predicate InNest(nest: seq<Loop>, env: seq<int>, v: seq<int>)
    requires Rectangular(nest) && |env| <= |nest|
  {
    && |v| == |nest|
    && v[..|env|] == env
    && forall i :: |env| <= i < |nest| ==> InDimension(nest[i], v[i])
  }

  /** What is asked of the dimensions of v other than d, for v to be in the nest below env. */
  ghost predicate Elsewhere(nest: seq<Loop>, env: seq<int>, v: seq<int>)
    requires Rectangular(nest) && |env| < |nest|
  {
    && |v| == |nest|
    && v[..|env|] == env
    && forall i :: |env| + 1 <= i < |nest| ==> InDimension(nest[i], v[i])
  }

  lemma InNestStep(nest: seq<Loop>, env: seq<int>, v: seq<int>)
    requires Rectangular(nest) && |env| < |nest|
    ensures forall y :: InNest(nest, env + [y], v) <==> Elsewhere(nest, env, v) && y == v[|env|]
    ensures InNest(nest, env, v) <==> Elsewhere(nest, env, v) && InDimension(nest[|env|], v[|env|])
  {
    var d := |env|;
    if |v| == |nest| {
      forall y ensures v[..d + 1] == env + [y] <==> v[..d] == env && v[d] == y {
        assert v[..d + 1] == v[..d] + [v[d]];
        if v[..d + 1] == env + [y] {
          assert v[..d + 1][..d] == env && v[..d + 1][d] == y;
        }
      }
    }
  }

  /** A rectangular nest executes each of its vectors exactly once, and no other. */
  lemma {:induction false} RectangularCount(nest: seq<Loop>, env: seq<int>, v: seq<int>)
    requires Rectangular(nest) && |env| <= |nest|
    ensures NestOk(nest)
    ensures Occurs(Run(nest, env, Vector), v) == if InNest(nest, env, v) then 1 else 0
    decreases |nest| - |env|
  {
    if |env| == |nest| {
      assert InNest(nest, env, v) <==> v == env;
    } else {
      var l := nest[|env|];
      InNestStep(nest, env, v);
      var others := Elsewhere(nest, env, v);
      var good := y => others && y == v[|env|];
      forall y ensures Occurs(Run(nest, env + [y], Vector), v) == if good(y) then 1 else 0 {
        RectangularCount(nest, env + [y], v);
      }
      hide Rectangular, InNest, Elsewhere, NestOk;
      OccursOver(nest, env, Values(nest, env), Vector, v, good);
      if others {
        PassingEqual(l.lb.value, l.ub.value, l.step, v[|env|], good);
      } else {
        PassingNone(Values(nest, env), good);
      }
    }
  }

  // ----- Order -----

  /** Lexicographic order of vectors of equal length. */
  predicate Before(a: seq<int>, b: seq<int>)
    requires |a| == |b|
  {
    a != [] && (a[0] < b[0] || (a[0] == b[0] && Before(a[1..], b[1..])))
  }

  lemma {:induction false} BeforePrefix(p: seq<int>, x: int, a: seq<int>, y: int, b: seq<int>)
    requires x < y && |a| == |b|
    ensures Before(p + [x] + a, p + [y] + b)
  {
    if p == [] {
      assert ([x] + a)[0] == x && ([y] + b)[0] == y;
      assert p + [x] + a == [x] + a && p + [y] + b == [y] + b;
    } else {
      BeforePrefix(p[1..], x, a, y, b);
      assert (p + [x] + a)[1..] == p[1..] + [x] + a;
      assert (p + [y] + b)[1..] == p[1..] + [y] + b;
    }
  }

  ghost predicate Extends(vs: seq<seq<int>>, env: seq<int>, n: nat) {
    forall i :: 0 <= i < |vs| ==> |vs[i]| == n && env <= vs[i]
  }

  ghost predicate Through(vs: seq<seq<int>>, d: nat, values: seq<int>) {
    forall i :: 0 <= i < |vs| ==> d < |vs[i]| && vs[i][d] in values
  }

  ghost predicate Sorted(vs: seq<seq<int>>) {
    (forall i, j :: 0 <= i < j < |vs| ==> |vs[i]| == |vs[j]|) &&
    (forall i, j :: 0 <= i < j < |vs| ==> Before(vs[i], vs[j]))
  }

  /** A nest executes its vectors in lexicographic order. */
  lemma {:induction false} RunSorted(nest: seq<Loop>, env: seq<int>)
    requires NestOk(nest) && |env| <= |nest|
    ensures Extends(Run(nest, env, Vector), env, |nest|)
    ensures Sorted(Run(nest, env, Vector))
    decreases |nest| - |env|, 1, 0
  {
    if |env| < |nest| {
      var l := nest[|env|];
      RangeIncreasing(Eval(l.lb, env), Eval(l.ub, env), l.step);
      RunOverSorted(nest, env, Values(nest, env));
    }
  }

  /** ... each under one of the values of the outermost loop. */
  lemma {:induction false} RunOverSorted(nest: seq<Loop>, env: seq<int>, values: seq<int>)
    requires NestOk(nest) && |env| < |nest|
    requires forall i, j :: 0 <= i < j < |values| ==> values[i] < values[j]
    ensures Extends(RunOver(nest, env, values, Vector), env, |nest|)
    ensures Through(RunOver(nest, env, values, Vector), |env|, values)
    ensures Sorted(RunOver(nest, env, values, Vector))
    decreases |nest| - |env|, 0, |values|
  {
    if values != [] {
      var d := |env|;
      var first := Run(nest, env + [values[0]], Vector);
      var rest := RunOver(nest, env, values[1..], Vector);
      RunSorted(nest, env + [values[0]]);
      RunOverSorted(nest, env, values[1..]);
      forall k | 0 <= k < |first| ensures env <= first[k] && first[k][d] == values[0] {
        assert first[k][..d + 1] == env + [values[0]];
        assert first[k][..d] == first[k][..d + 1][..d] == env;
      }
      forall i, j | 0 <= i < |first| && 0 <= j < |rest| ensures Before(first[i], rest[j]) {
        var a, b := first[i], rest[j];
        assert b[d] in values[1..];
        assert a == env + [a[d]] + a[d + 1..] && b == env + [b[d]] + b[d + 1..];
        BeforePrefix(env, a[d], a[d + 1..], b[d], b[d + 1..]);
      }
      SortedConcat(first, rest);
    }
  }

  lemma SortedConcat(a: seq<seq<int>>, b: seq<seq<int>>)
    requires Sorted(a) && Sorted(b)
    requires forall i, j :: 0 <= i < |a| && 0 <= j < |b| ==> |a[i]| == |b[j]| && Before(a[i], b[j])
    ensures Sorted(a + b)
  {
  }

  // ----- Bodies that commute -----

  function Execute<S, T>(s: S, work: seq<T>, apply: (S, T) -> S): S {
    if work == [] then s else Execute(apply(s, work[0]), work[1..], apply)
  }

  ghost predicate Commute<S(!new), T(!new)>(apply: (S, T) -> S) {
    forall s, x, y :: apply(apply(s, x), y) == apply(apply(s, y), x)
  }

  /** An instance can be moved to the front. */
  lemma {:induction false} MoveToFront<S(!new), T(!new)>(s: S, work: seq<T>, i: nat, apply: (S, T) -> S)
    requires Commute(apply) && i < |work|
    ensures Execute(s, work, apply) == Execute(apply(s, work[i]), work[..i] + work[i + 1..], apply)
  {
    if i == 0 {
      assert work[..0] + work[1..] == work[1..];
    } else {
      var rest := work[1..];
      MoveToFront(apply(s, work[0]), rest, i - 1, apply);
      assert rest[i - 1] == work[i];
      var moved := work[..i] + work[i + 1..];
      assert moved[1..] == rest[..i - 1] + rest[i..];
    }
  }

  lemma NothingIn<T>(s: seq<T>)
    requires multiset(s) == multiset{}
    ensures s == []
  {
    assert |s| == |multiset(s)|;
  }

  lemma RemoveOne<T>(s: seq<T>, i: nat)
    requires i < |s|
    ensures multiset(s[..i] + s[i + 1..]) == multiset(s) - multiset{s[i]}
  {
    assert s == s[..i] + [s[i]] + s[i + 1..];
  }

  lemma ExecuteFirst<S, T>(s: S, work: seq<T>, apply: (S, T) -> S)
    ensures Execute(s, work, apply) == if work == [] then s else Execute(apply(s, work[0]), work[1..], apply)
  {
  }

  /** Executing the same instances in another order ends in the same state. */
  lemma {:induction false} SameInstances<S(!new), T(!new)>(s: S, a: seq<T>, b: seq<T>, apply: (S, T) -> S)
    requires Commute(apply) && multiset(a) == multiset(b)
    ensures Execute(s, a, apply) == Execute(s, b, apply)
    decreases |a|
  {
    hide *;
    if a == [] {
      NothingIn(b);
    } else {
      assert a[0] in multiset(b);
      var i :| 0 <= i < |b| && b[i] == a[0];
      var rest := b[..i] + b[i + 1..];
      MoveToFront(s, b, i, apply);
      ExecuteFirst(s, a, apply);
      RemoveOne(a, 0);
      RemoveOne(b, i);
      assert a[..0] + a[1..] == a[1..];
      SameInstances(apply(s, a[0]), a[1..], rest, apply);
    }
  }

  ghost predicate AtMostOnce<T(!new)>(s: seq<T>) {
    forall x :: Occurs(s, x) <= 1
  }

  lemma SameCounts<T(!new)>(a: seq<T>, b: seq<T>)
    requires forall x :: Occurs(a, x) == Occurs(b, x)
    ensures multiset(a) == multiset(b)
  {
    forall x ensures multiset(a)[x] == multiset(b)[x] {
      assert Occurs(a, x) == Occurs(b, x);
    }
  }

  // ----- Mapped bodies -----

  /** Running a nest with a body that first maps the vector is mapping the run. */
  function Map<A, B>(f: A -> B, s: seq<A>): seq<B> {
    if s == [] then [] else [f(s[0])] + Map(f, s[1..])
  }

  lemma MapStep<A, B>(f: A -> B, x: A, s: seq<A>)
    ensures Map(f, [x] + s) == [f(x)] + Map(f, s)
  {
    assert ([x] + s)[1..] == s;
  }

  lemma {:induction false} MapConcat<A, B>(f: A -> B, a: seq<A>, b: seq<A>)
    ensures Map(f, a + b) == Map(f, a) + Map(f, b)
  {
    if a == [] {
      assert a + b == b && Map(f, a) == [];
    } else {
      hide Map;
      var rest := a[1..];
      MapConcat(f, rest, b);
      MapStep(f, a[0], rest);
      MapStep(f, a[0], rest + b);
      assert a + b == [a[0]] + (rest + b) && a == [a[0]] + rest;
    }
  }

  lemma {:induction false} RunMapped<A, B>(nest: seq<Loop>, env: seq<int>, body: seq<int> -> A, f: A -> B,
                                           both: seq<int> -> B)
    requires NestOk(nest) && |env| <= |nest|
    requires forall e: seq<int> :: |e| == |nest| ==> both(e) == f(body(e))
    ensures Run(nest, env, both) == Map(f, Run(nest, env, body))
    decreases |nest| - |env|, 1, 0
  {
    if |env| < |nest| {
      RunOverMapped(nest, env, Values(nest, env), body, f, both);
    } else {
      assert [body(env)][1..] == [];
    }
  }

  lemma {:induction false} RunOverMapped<A, B>(nest: seq<Loop>, env: seq<int>, values: seq<int>,
                                               body: seq<int> -> A, f: A -> B, both: seq<int> -> B)
    requires NestOk(nest) && |env| < |nest|
    requires forall e: seq<int> :: |e| == |nest| ==> both(e) == f(body(e))
    ensures RunOver(nest, env, values, both) == Map(f, RunOver(nest, env, values, body))
    decreases |nest| - |env|, 0, |values|
  {
    if values != [] {
      RunMapped(nest, env + [values[0]], body, f, both);
      RunOverMapped(nest, env, values[1..], body, f, both);
      MapConcat(f, Run(nest, env + [values[0]], body), RunOver(nest, env, values[1..], body));
    }
  }

  lemma {:induction false} OccursMapped<A, B>(f: A -> B, s: seq<A>, a: A, b: B)
    requires forall i :: 0 <= i < |s| ==> (f(s[i]) == b <==> s[i] == a)
    ensures Occurs(Map(f, s), b) == Occurs(s, a)
  {
    if s != [] {
      OccursMapped(f, s[1..], a, b);
      assert s == [s[0]] + s[1..];
    }
  }

  lemma MapOne<A, B>(f: A -> B, s: seq<A>, i: nat)
    requires i < |s|
    ensures multiset(Map(f, s)) == multiset{f(s[i])} + multiset(Map(f, s[..i] + s[i + 1..]))
  {
    hide Map;
    var front, x, back := s[..i], s[i], s[i + 1..];
    MapConcat(f, front, back);
    MapConcat(f, front, [x] + back);
    MapStep(f, x, back);
    assert s == front + ([x] + back);
  }

  lemma {:induction false} SameMapped<A, B>(f: A -> B, a: seq<A>, b: seq<A>)
    requires multiset(a) == multiset(b)
    ensures multiset(Map(f, a)) == multiset(Map(f, b))
    decreases |a|
  {
    hide Map;
    if a == [] {
      NothingIn(b);
    } else {
      assert a[0] in multiset(b);
      var i :| 0 <= i < |b| && b[i] == a[0];
      RemoveOne(a, 0);
      RemoveOne(b, i);
      SameMapped(f, a[..0] + a[1..], b[..i] + b[i + 1..]);
      MapOne(f, a, 0);
      MapOne(f, b, i);
    }
  }

  lemma {:induction false} NeverMapped<A, B>(f: A -> B, s: seq<A>, b: B)
    requires forall i :: 0 <= i < |s| ==> f(s[i]) != b
    ensures Occurs(Map(f, s), b) == 0
  {
    if s != [] {
      NeverMapped(f, s[1..], b);
    }
  }
}
