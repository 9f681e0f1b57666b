/** Names of the components a splat is expanded into: the base name and one "_index" for each
    dimension, made once for the whole shape and rebuilt for every extraction. */
module Naming {
  import opened Nests
  import opened Enumeration

  // ----- Decimal numerals -----

  const DIGITS := "0123456789"

  function Decimal(n: nat): string {
    if n < 10 then [DIGITS[n]] else Decimal(n / 10) + [DIGITS[n % 10]]
  }

  /** Reading a numeral back. */
  function DigitValue(c: char): nat {
    if '0' <= c <= '9' then c as nat - '0' as nat else 0
  }

  function Value(s: string): nat {
    if s == "" then 0 else 10 * Value(s[..|s| - 1]) + DigitValue(s[|s| - 1])
  }

  /** Numerals are decimal, most significant digit first, without leading zeros. */
  lemma {:induction false} DecimalRoundTrip(n: nat)
    ensures Value(Decimal(n)) == n
    ensures Decimal(n) != "" && (n > 0 ==> Decimal(n)[0] != '0') && (n == 0 ==> Decimal(n) == "0")
  {
    assert DigitValue(DIGITS[n % 10]) == n % 10;
    DecimalLast(n);
    if n >= 10 {
      DecimalRoundTrip(n / 10);
      assert Decimal(n)[0] == Decimal(n / 10)[0];
    } else {
      assert Decimal(n)[..0] == "" && Value("") == 0;
    }
  }

  function ToString(n: int): string {
    if n < 0 then "-" + Decimal(-n) else Decimal(n)
  }

  predicate Numeral(c: char) {
    c in DIGITS || c == '-'
  }

  lemma {:induction false} DecimalDigits(n: nat)
    ensures Decimal(n) != []
    ensures forall i :: 0 <= i < |Decimal(n)| ==> Decimal(n)[i] in DIGITS
  {
    if n >= 10 {
      DecimalDigits(n / 10);
    }
  }

  lemma NumeralsOnly(n: int)
    ensures ToString(n) != [] && forall i :: 0 <= i < |ToString(n)| ==> Numeral(ToString(n)[i])
  {
    DecimalDigits(if n < 0 then -n else n);
  }

  lemma DigitsDistinct(a: nat, b: nat)
    requires a < 10 && b < 10 && DIGITS[a] == DIGITS[b]
    ensures a == b
  {
  }

  lemma DecimalLast(n: nat)
    ensures Decimal(n) != [] && Decimal(n)[|Decimal(n)| - 1] == DIGITS[n % 10]
    ensures Decimal(n)[..|Decimal(n)| - 1] == if n < 10 then [] else Decimal(n / 10)
  {
  }

  lemma {:induction false} DecimalInjective(a: nat, b: nat)
    requires Decimal(a) == Decimal(b)
    ensures a == b
  {
    DecimalLast(a);
    DecimalLast(b);
    DigitsDistinct(a % 10, b % 10);
    if a >= 10 && b >= 10 {
      DecimalInjective(a / 10, b / 10);
    } else if a >= 10 {
      DecimalLast(a / 10);
    } else if b >= 10 {
      DecimalLast(b / 10);
    }
  }

  lemma ToStringInjective(a: int, b: int)
    requires ToString(a) == ToString(b)
    ensures a == b
  {
    var x, y := if a < 0 then -a else a, if b < 0 then -b else b;
    DecimalDigits(x);
    DecimalDigits(y);
    assert Decimal(x)[0] != '-' && Decimal(y)[0] != '-';
    assert a < 0 ==> ToString(a)[0] == '-' && ToString(a)[1..] == Decimal(x);
    assert b < 0 ==> ToString(b)[0] == '-' && ToString(b)[1..] == Decimal(y);
    DecimalInjective(x, y);
  }

  // ----- Suffixes -----

  function Part(j: int): string {
    "_" + ToString(j)
  }

  function Suffix(v: seq<int>): string {
    if v == [] then "" else Suffix(v[..|v| - 1]) + Part(v[|v| - 1])
  }

  lemma SuffixSnoc(v: seq<int>, j: int)
    ensures Suffix(v + [j]) == Suffix(v) + Part(j)
  {
    assert (v + [j])[..|v|] == v;
  }

  lemma SuffixNone(v: seq<int>)
    ensures Suffix(v[..0]) == ""
  {
  }

  /** The last underscore of a name stands before its last index. */
  lemma LastUnderscore(s: string, j: int, k: nat)
    requires k == 0 || k < |s + Part(j)|
    ensures |s| < |s + Part(j)| && (s + Part(j))[|s|] == '_'
    ensures |s| < k ==> (s + Part(j))[k] != '_'
  {
    NumeralsOnly(j);
    hide ToString;
    assert !Numeral('_');
    assert Part(j)[0] == '_';
    if |s| < k {
      assert (s + Part(j))[k] == ToString(j)[k - |s| - 1];
    }
  }

  lemma LastPart(s: string, t: string, a: int, b: int)
    requires s + Part(a) == t + Part(b)
    ensures s == t && a == b
  {
    hide *;
    var x := s + Part(a);
    LastUnderscore(s, a, 0);
    LastUnderscore(t, b, 0);
    LastUnderscore(s, a, |t|);
    LastUnderscore(t, b, |s|);
    assert |s| == |t|;
    assert s == x[..|s|] == t;
    assert Part(a) == x[|s|..] == Part(b);
    PartInjective(a, b);
  }

  lemma PartInjective(a: int, b: int)
    requires Part(a) == Part(b)
    ensures a == b
  {
    hide ToString;
    assert ToString(a) == Part(a)[1..] == Part(b)[1..] == ToString(b);
    ToStringInjective(a, b);
  }

  /** Different index vectors never share a suffix, whatever their ranks. */
  lemma {:induction false} SuffixInjective(v: seq<int>, w: seq<int>)
    requires Suffix(v) == Suffix(w)
    ensures v == w
  {
    hide Suffix, Part;
    if v != [] && w != [] {
      var v', w', a, b := v[..|v| - 1], w[..|w| - 1], v[|v| - 1], w[|w| - 1];
      assert v == v' + [a] && w == w' + [b];
      SuffixSnoc(v', a);
      SuffixSnoc(w', b);
      LastPart(Suffix(v'), Suffix(w'), a, b);
      SuffixInjective(v', w');
    } else {
      SuffixEmpty(v);
      SuffixEmpty(w);
    }
  }

  lemma SuffixEmpty(v: seq<int>)
    ensures Suffix(v) == [] <==> v == []
  {
  }

  // ----- The enumeration on strings -----

  lemma Backtracked(line: string, j: int)
    ensures var longer := line + "_" + ToString(j);
            longer == line + Part(j) && longer[..|longer| - 1 - |ToString(j)|] == line
  {
    hide ToString;
    assert line + "_" + ToString(j) == line + ("_" + ToString(j));
  }

  /** The recursion that extends the name, lists everything below it and cuts the name back by
      the length of what was appended. */
  method GetPermutation(newIvs: Listing<string>, lineIvs: string, i: nat, ubs: seq<int>, ghost prefix: seq<int>)
    requires |prefix| == i <= |ubs| && lineIvs == Suffix(prefix)
    modifies newIvs
    ensures newIvs.items == old(newIvs.items) + Run(Box(ubs), prefix, Suffix)
    decreases |ubs| - i
  {
    hide Suffix, ToString, Part;
    if i < |ubs| {
      var line := lineIvs;
      ghost var nest, was := Box(ubs), newIvs.items;
      ghost var below := RunOver(nest, prefix, Range(0, ubs[i], 1), Suffix);
      assert Run(nest, prefix, Suffix) == below;
      var j := 0;
      while j < ubs[i]
        invariant line == lineIvs
        invariant 0 <= j
        invariant newIvs.items + RunOver(nest, prefix, Range(j, ubs[i], 1), Suffix) == was + below
      {
        hide Run, RunOver, Range, Box, NestOk, Rectangular;
        line := line + "_" + ToString(j);
        Backtracked(lineIvs, j);
        SuffixSnoc(prefix, j);
        GetPermutation(newIvs, line, i + 1, ubs, prefix + [j]);
        line := line[..|line| - 1 - |ToString(j)|];
        RunOverNext(nest, prefix, j, ubs[i], Suffix);
        j := j + 1;
      }
      assert Range(j, ubs[i], 1) == [];
    } else {
      newIvs.PushBack(lineIvs);
    }
  }

  function ExpandedNames(base: string, shape: seq<int>): seq<string> {
    Map(Prefixed(base), Run(Box(shape), [], Suffix))
  }

  /** The names of the components that replace a splat component called `base`. */
  method SplatNames(base: string, shape: seq<int>) returns (names: seq<string>)
    ensures names == ExpandedNames(base, shape)
  {
    hide *;
    var shapeString := new Listing<string>();
    SuffixEmpty([]);
    GetPermutation(shapeString, "", 0, shape, []);
    names := [];
    ghost var all := shapeString.items;
    NamesOf(base, shape, all);
    for k := 0 to |shapeString.items|
      invariant shapeString.items == all
      invariant names + Map(Prefixed(base), all[k..]) == ExpandedNames(base, shape)
    {
      assert all[k..] == [all[k]] + all[k + 1..];
      NextName(base, all[k], all[k + 1..], names);
      names := names + [base + shapeString.items[k]];
    }
  }

  lemma NamesOf(base: string, shape: seq<int>, all: seq<string>)
    requires all == [] + Run(Box(shape), [], Suffix)
    ensures [] + Map(Prefixed(base), all[0..]) == ExpandedNames(base, shape)
    ensures Map(Prefixed(base), all[|all|..]) == []
  {
    assert all[0..] == Run(Box(shape), [], Suffix);
  }

  lemma NextName(base: string, x: string, rest: seq<string>, names: seq<string>)
    ensures names + Map(Prefixed(base), [x] + rest) == (names + [base + x]) + Map(Prefixed(base), rest)
  {
    hide *;
    MapStep(Prefixed(base), x, rest);
    PrefixedAt(base, x);
  }

  function Prefixed(base: string): string -> string {
    (s: string) => base + s
  }

  lemma PrefixedAt(base: string, s: string)
    ensures Prefixed(base)(s) == base + s
  {
  }

  /** The name an extraction from the component `base` asks for. */
  method RebuildName(base: string, indices: seq<int>) returns (name: string)
    ensures name == base + Suffix(indices)
  {
    hide Suffix, ToString;
    SuffixNone(indices);
    name := base;
    for k := 0 to |indices|
      invariant name == base + Suffix(indices[..k])
    {
      assert indices[..k + 1] == indices[..k] + [indices[k]];
      SuffixSnoc(indices[..k], indices[k]);
      var part := "_" + ToString(indices[k]);
      assert base + (Suffix(indices[..k]) + part) == name + part;
      name := name + part;
    }
    assert indices[..|indices|] == indices;
  }

  /** The name rebuilt for some indices was made exactly once when the indices are inside the
      shape, and never when they are not. */
  lemma ExtractionFound(base: string, shape: seq<int>, indices: seq<int>)
    ensures Occurs(ExpandedNames(base, shape), base + Suffix(indices))
         == if InBox(shape, indices) then 1 else 0
  {
    var vs := Tuples(shape, []);
    RunMapped(Box(shape), [], Vector, Suffix, Suffix);
    forall i | 0 <= i < |vs| ensures Suffix(vs[i]) == Suffix(indices) <==> vs[i] == indices {
      if Suffix(vs[i]) == Suffix(indices) {
        SuffixInjective(vs[i], indices);
      }
    }
    OccursMapped(Suffix, vs, indices, Suffix(indices));
    var names := Run(Box(shape), [], Suffix);
    forall i | 0 <= i < |names|
      ensures Prefixed(base)(names[i]) == base + Suffix(indices) <==> names[i] == Suffix(indices)
    {
      assert names[i] == (base + names[i])[|base|..];
      assert Suffix(indices) == (base + Suffix(indices))[|base|..];
    }
    OccursMapped(Prefixed(base), names, Suffix(indices), base + Suffix(indices));
    TuplesExact(shape, indices);
  }

  // ----- When two expansions share a name -----

  lemma {:induction false} SuffixConcat(u: seq<int>, w: seq<int>)
    ensures Suffix(u + w) == Suffix(u) + Suffix(w)
  {
    hide Suffix, Part;
    if w == [] {
      SuffixEmpty(w);
      assert u + w == u;
    } else {
      var w', j := w[..|w| - 1], w[|w| - 1];
      SuffixConcat(u, w');
      SuffixSnoc(w', j);
      SuffixSnoc(u + w', j);
      assert w == w' + [j] && u + w == (u + w') + [j];
    }
  }

  /** Equal names of two components: one base is the other with some indices behind it, and
      those indices are the first of the other's. */
  lemma {:induction false} OneExtendsTheOther(b1: string, v: seq<int>, b2: string, w: seq<int>) returns (u: seq<int>)
    requires b1 + Suffix(v) == b2 + Suffix(w)
    ensures (b2 == b1 + Suffix(u) && v == u + w) || (b1 == b2 + Suffix(u) && w == u + v)
    decreases |v|
  {
    hide Suffix, Part;
    if v == [] {
      SuffixEmpty(v);
      u := w;
    } else if w == [] {
      SuffixEmpty(w);
      u := v;
    } else {
      var v', w', j, k := v[..|v| - 1], w[..|w| - 1], v[|v| - 1], w[|w| - 1];
      assert v == v' + [j] && w == w' + [k];
      SuffixSnoc(v', j);
      SuffixSnoc(w', k);
      assert b1 + Suffix(v) == (b1 + Suffix(v')) + Part(j);
      assert b2 + Suffix(w) == (b2 + Suffix(w')) + Part(k);
      LastPart(b1 + Suffix(v'), b2 + Suffix(w'), j, k);
      u := OneExtendsTheOther(b1, v', b2, w');
    }
  }

  /** The name `inner` is `outer` with indices behind it that lead into the shape of `outer`,
      and go on there as they do in the shape of `inner`. */
  ghost predicate Continues(outer: string, outerShape: seq<int>, inner: string, innerShape: seq<int>) {
    exists u, w :: inner == outer + Suffix(u) && InBox(innerShape, w) && InBox(outerShape, u + w)
  }

  ghost predicate Clash(b1: string, s1: seq<int>, b2: string, s2: seq<int>) {
    exists v, w :: InBox(s1, v) && InBox(s2, w) && b1 + Suffix(v) == b2 + Suffix(w)
  }

  lemma ContinuesClashes(b1: string, s1: seq<int>, b2: string, s2: seq<int>)
    requires Continues(b1, s1, b2, s2)
    ensures Clash(b1, s1, b2, s2) && Clash(b2, s2, b1, s1)
  {
    hide Suffix, InBox;
    var u, w :| b2 == b1 + Suffix(u) && InBox(s2, w) && InBox(s1, u + w);
    SuffixConcat(u, w);
    assert b1 + (Suffix(u) + Suffix(w)) == b2 + Suffix(w);
  }

  /** Two components share a name if and only if one base continues the other. */
  lemma ClashIff(b1: string, s1: seq<int>, b2: string, s2: seq<int>)
    ensures Clash(b1, s1, b2, s2) <==> Continues(b1, s1, b2, s2) || Continues(b2, s2, b1, s1)
  {
    if Clash(b1, s1, b2, s2) {
      var v, w :| InBox(s1, v) && InBox(s2, w) && b1 + Suffix(v) == b2 + Suffix(w);
      var u := OneExtendsTheOther(b1, v, b2, w);
      hide Suffix, InBox;
    }
    if Continues(b1, s1, b2, s2) {
      ContinuesClashes(b1, s1, b2, s2);
    }
    if Continues(b2, s2, b1, s1) {
      ContinuesClashes(b2, s2, b1, s1);
    }
  }

  lemma {:induction false} MapMembers<A, B>(f: A -> B, s: seq<A>, y: B)
    requires y in Map(f, s)
    ensures exists i :: 0 <= i < |s| && f(s[i]) == y
  {
    if f(s[0]) != y {
      MapMembers(f, s[1..], y);
      var i :| 0 <= i < |s[1..]| && f(s[1..][i]) == y;
      assert f(s[i + 1]) == y;
    }
  }

  /** The names a splat expands to are the base with the suffixes of its box. */
  lemma ExpandedMembers(base: string, shape: seq<int>, name: string)
    ensures name in ExpandedNames(base, shape) <==> exists v :: InBox(shape, v) && name == base + Suffix(v)
  {
    if v :| InBox(shape, v) && name == base + Suffix(v) {
      ExtractionFound(base, shape, v);
      assert name in multiset(ExpandedNames(base, shape));
    }
    if name in ExpandedNames(base, shape) {
      var vs := Tuples(shape, []);
      RunMapped(Box(shape), [], Vector, Suffix, Suffix);
      MapMembers(Prefixed(base), Map(Suffix, vs), name);
      var i :| 0 <= i < |Map(Suffix, vs)| && Prefixed(base)(Map(Suffix, vs)[i]) == name;
      MapMembers(Suffix, vs, Map(Suffix, vs)[i]);
      var k :| 0 <= k < |vs| && Suffix(vs[k]) == Map(Suffix, vs)[i];
      TuplesExact(shape, vs[k]);
      assert vs[k] in multiset(vs);
    }
  }

  /** Two expanded splats have disjoint names if and only if neither base continues the other. */
  lemma ExpansionsDisjoint(b1: string, s1: seq<int>, b2: string, s2: seq<int>)
    ensures (forall name :: name in ExpandedNames(b1, s1) ==> name !in ExpandedNames(b2, s2))
       <==> !Continues(b1, s1, b2, s2) && !Continues(b2, s2, b1, s1)
  {
    hide *;
    ClashIff(b1, s1, b2, s2);
    if name :| name in ExpandedNames(b1, s1) && name in ExpandedNames(b2, s2) {
      SharedClashes(b1, s1, b2, s2, name);
    }
    if Clash(b1, s1, b2, s2) {
      var name := ClashShared(b1, s1, b2, s2);
    }
  }

  lemma SharedClashes(b1: string, s1: seq<int>, b2: string, s2: seq<int>, name: string)
    requires name in ExpandedNames(b1, s1) && name in ExpandedNames(b2, s2)
    ensures Clash(b1, s1, b2, s2)
  {
    ExpandedMembers(b1, s1, name);
    ExpandedMembers(b2, s2, name);
    hide Suffix, InBox, ExpandedNames;
    var v :| InBox(s1, v) && name == b1 + Suffix(v);
    var w :| InBox(s2, w) && name == b2 + Suffix(w);
  }

  lemma ClashShared(b1: string, s1: seq<int>, b2: string, s2: seq<int>) returns (name: string)
    requires Clash(b1, s1, b2, s2)
    ensures name in ExpandedNames(b1, s1) && name in ExpandedNames(b2, s2)
  {
    hide Suffix, InBox, ExpandedNames;
    var v, w :| InBox(s1, v) && InBox(s2, w) && b1 + Suffix(v) == b2 + Suffix(w);
    name := b1 + Suffix(v);
    ExpandedMembers(b1, s1, name);
    ExpandedMembers(b2, s2, name);
  }

  /** Across bases names can clash: a base may itself end in an index. */
  lemma BasesClash()
    ensures "pe" + Suffix([1, 2]) == "pe_1" + Suffix([2])
    ensures Clash("pe", [2, 3], "pe_1", [3])
  {
    SuffixSnoc([1], 2);
    SuffixSnoc([], 1);
    SuffixSnoc([], 2);
    assert [1] + [2] == [1, 2] && [] + [1] == [1] && [] + [2] == [2];
  }
}
