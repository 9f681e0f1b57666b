/** The alias map: one walk over a program in which values are passed into launches, returned
    from launches and loops, and fetched from components by name, maps every value to the
    value it stands for. */
module Aliases {

  datatype Field = Field(name: string, value: nat)

  /** Values are positive numbers; zero is the null value. */
  datatype Node =
    | Plain(results: seq<nat>)
    | CreateComp(result: nat, fields: seq<Field>)
    | AddComp(handler: nat, fields: seq<Field>)
    | GetComp(result: nat, handler: nat, name: string)
    | Splat(result: nat, element: nat)
    | Extract(result: nat, vector: nat)
    | Launch(done: nat, results: seq<nat>, args: seq<nat>, operands: seq<nat>, body: seq<Node>, returned: seq<nat>)
    | Loop(iv: nat, results: seq<nat>, iterArgs: seq<nat>, inits: seq<nat>, body: seq<Node>, yielded: seq<nat>)

  // ----- The walk, one definition at a time -----

  datatype Step =
    | Unbound(v: nat)      // an induction variable, which gets no entry
    | Own(v: nat)
    | Alias(v: nat, same: nat)
    | Create(v: nat, fields: seq<Field>)
    | Add(handler: nat, fields: seq<Field>)
    | Get(v: nat, handler: nat, name: string)
    | Spread(v: nat, element: nat)
    | Element(v: nat, vector: nat)
  {
    function Defines(): set<nat> {
      if Add? then {} else {v}
    }

    function Enters(): set<nat> {
      if Add? || Unbound? then {} else {v}
    }

    function Uses(): set<nat> {
      match this
      case Unbound(_) => {}
      case Own(_) => {}
      case Alias(_, same) => {same}
      case Create(_, fields) => ValuesOf(fields)
      case Add(handler, fields) => {handler} + ValuesOf(fields)
      case Get(_, handler, _) => {handler}
      case Spread(_, element) => {element}
      case Element(_, vector) => {vector}
    }
  }

  function ValuesOf(fields: seq<Field>): set<nat> {
    set f | f in fields :: f.value
  }

  function Owns(vs: seq<nat>): (steps: seq<Step>)
    ensures |steps| == |vs| && forall k :: 0 <= k < |vs| ==> steps[k] == Own(vs[k])
  {
    seq(|vs|, k requires 0 <= k < |vs| => Own(vs[k]))
  }

  function Aliased(vs: seq<nat>, to: seq<nat>): (steps: seq<Step>)
    requires |vs| == |to|
    ensures |steps| == |vs| && forall k :: 0 <= k < |vs| ==> steps[k] == Alias(vs[k], to[k])
  {
    seq(|vs|, k requires 0 <= k < |vs| => Alias(vs[k], to[k]))
  }

  /** Every value is passed to something that takes it. */
  predicate Matched(nodes: seq<Node>) {
    forall n :: n in nodes ==> MatchedNode(n)
  }

  predicate MatchedNode(n: Node) {
    match n
    case Launch(_, results, args, operands, body, returned) =>
      |args| == |operands| && |results| == |returned| && Matched(body)
    case Loop(iv, results, iterArgs, inits, body, yielded) =>
      |iterArgs| == |inits| && |results| == |yielded| && Matched(body)
    case _ => true
  }

  /** A block is visited before its operations, and an operation after its own regions. */
  function Steps(nodes: seq<Node>): seq<Step>
    requires Matched(nodes)
    decreases nodes
  {
    if nodes == [] then [] else NodeSteps(nodes[0]) + Steps(nodes[1..])
  }

  function NodeSteps(n: Node): seq<Step>
    requires MatchedNode(n)
    decreases n
  {
    match n
    case Plain(results) => Owns(results)
    case CreateComp(result, fields) => [Create(result, fields)]
    case AddComp(handler, fields) => [Add(handler, fields)]
    case GetComp(result, handler, name) => [Get(result, handler, name)]
    case Splat(result, element) => [Spread(result, element)]
    case Extract(result, vector) => [Element(result, vector)]
    case Launch(done, results, args, operands, body, returned) =>
      Aliased(args, operands) + Steps(body) + [Own(done)] + Aliased(results, returned)
    case Loop(iv, results, iterArgs, inits, body, yielded) =>
      ([Unbound(iv)] + Owns(iterArgs)) + Steps(body) + Aliased(results, yielded)
  }

  // ----- The maps -----

  datatype Maps = Maps(ids: map<nat, nat>, comps: map<nat, map<string, nat>>, vectors: map<nat, nat>)

  /** Reading a missing key gives the null value. */
  function At(m: map<nat, nat>, v: nat): nat {
    if v in m then m[v] else 0
  }

  function CompAt(m: map<nat, map<string, nat>>, c: nat): map<string, nat> {
    if c in m then m[c] else map[]
  }

  /** Insertion leaves an existing entry alone. */
  function Insert<K, V>(m: map<K, V>, k: K, v: V): map<K, V> {
    if k in m then m else m[k := v]
  }

  function InsertFields(m: map<string, nat>, fields: seq<Field>, ids: map<nat, nat>): map<string, nat>
    decreases |fields|
  {
    if fields == [] then m
    else InsertFields(Insert(m, fields[0].name, At(ids, fields[0].value)), fields[1..], ids)
  }

  function Do(m: Maps, s: Step): Maps {
    match s
    case Unbound(_) => m
    case Own(v) => m.(ids := Insert(m.ids, v, v))
    case Alias(v, same) => m.(ids := Insert(m.ids, v, At(m.ids, same)))
    case Create(v, fields) =>
      m.(ids := Insert(m.ids, v, v), comps := Insert(m.comps, v, InsertFields(map[], fields, m.ids)))
    case Add(handler, fields) =>
      var c := At(m.ids, handler);
      m.(comps := m.comps[c := InsertFields(CompAt(m.comps, c), fields, m.ids)])
    case Get(v, handler, name) =>
      var fields := CompAt(m.comps, At(m.ids, handler));
      m.(ids := Insert(m.ids, v, if name in fields then At(m.ids, fields[name]) else v),
         comps := m.comps[At(m.ids, handler) := fields])
    case Spread(v, element) =>
      m.(ids := Insert(m.ids, v, v), vectors := Insert(m.vectors, v, At(m.ids, element)))
    case Element(v, vector) =>
      m.(ids := Insert(m.ids, v, At(m.vectors, At(m.ids, vector))))
  }

  function DoAll(m: Maps, steps: seq<Step>): Maps {
    if steps == [] then m else Do(DoAll(m, steps[..|steps| - 1]), steps[|steps| - 1])
  }

  function Defined(steps: seq<Step>): set<nat> {
    if steps == [] then {} else Defined(steps[..|steps| - 1]) + steps[|steps| - 1].Defines()
  }

  /** The values that have an entry. */
  function Entered(steps: seq<Step>): set<nat> {
    if steps == [] then {} else Entered(steps[..|steps| - 1]) + steps[|steps| - 1].Enters()
  }

  lemma {:induction false} EnteredDefined(steps: seq<Step>)
    ensures Entered(steps) <= Defined(steps)
  {
    if steps != [] {
      EnteredDefined(steps[..|steps| - 1]);
    }
  }

  /** Each value has one definition, and is used only after it. */
  predicate Ordered(steps: seq<Step>) {
    if steps == [] then true
    else
      var before, last := steps[..|steps| - 1], steps[|steps| - 1];
      && Ordered(before)
      && last.Uses() <= Defined(before)
      && last.Defines() !! Defined(before) + {0}
  }

  // ----- The meaning of the map -----

  datatype Option = None | Some(value: nat)

  /** The first field of that name. */
  function Named(fields: seq<Field>, name: string): Option {
    if fields == [] then None
    else if fields[0].name == name then Some(fields[0].value)
    else Named(fields[1..], name)
  }

  function BoundBy(ids: map<nat, nat>, s: Step, c: nat, name: string): Option {
    if (s.Create? && s.v == c) || (s.Add? && At(ids, s.handler) == c) then Named(s.fields, name) else None
  }

  /** The value that was first bound to a name of component c, going by the map itself. */
  function Bound(ids: map<nat, nat>, steps: seq<Step>, c: nat, name: string): Option {
    if steps == [] then None
    else
      var before := Bound(ids, steps[..|steps| - 1], c, name);
      if before.Some? then before else BoundBy(ids, steps[|steps| - 1], c, name)
  }

  /** What the vector w was made of. */
  function MadeOf(steps: seq<Step>, w: nat): Option {
    if steps == [] then None
    else
      var s := steps[|steps| - 1];
      if s.Spread? && s.v == w then Some(s.element) else MadeOf(steps[..|steps| - 1], w)
  }

  function Meant(ids: map<nat, nat>, o: Option, otherwise: nat): nat {
    if o.Some? then At(ids, o.value) else otherwise
  }

  /** Recursive resolution, as an equation between the entries of the map: each value stands
      for itself or for what the value it comes from stands for. */
  predicate Equation(ids: map<nat, nat>, before: seq<Step>, s: Step) {
    match s
    case Unbound(v) => At(ids, v) == 0
    case Own(v) => At(ids, v) == v
    case Create(v, _) => At(ids, v) == v
    case Spread(v, _) => At(ids, v) == v
    case Add(_, _) => true
    case Alias(v, same) => At(ids, v) == At(ids, same)
    case Get(v, handler, name) => At(ids, v) == Meant(ids, Bound(ids, before, At(ids, handler), name), v)
    case Element(v, vector) => At(ids, v) == Meant(ids, MadeOf(before, At(ids, vector)), 0)
  }

  predicate Equations(ids: map<nat, nat>, steps: seq<Step>) {
    if steps == [] then true
    else
      var before := steps[..|steps| - 1];
      Equations(ids, before) && Equation(ids, before, steps[|steps| - 1])
  }

  ghost predicate Agree(a: map<nat, nat>, b: map<nat, nat>, on: set<nat>) {
    forall v :: v in on ==> At(a, v) == At(b, v)
  }

  lemma {:induction false} NamedIsUsed(fields: seq<Field>, name: string)
    ensures Named(fields, name).Some? ==> Named(fields, name).value in ValuesOf(fields)
  {
    if fields != [] && fields[0].name != name {
      NamedIsUsed(fields[1..], name);
    }
  }

  lemma {:induction false} BoundFrame(a: map<nat, nat>, b: map<nat, nat>, steps: seq<Step>, c: nat, name: string)
    requires Ordered(steps) && Agree(a, b, Defined(steps))
    ensures Bound(a, steps, c, name) == Bound(b, steps, c, name)
    ensures Bound(a, steps, c, name).Some? ==> Bound(a, steps, c, name).value in Defined(steps)
  {
    if steps != [] {
      var s := steps[|steps| - 1];
      BoundFrame(a, b, steps[..|steps| - 1], c, name);
      if s.Create? || s.Add? {
        NamedIsUsed(s.fields, name);
      }
    }
  }

  lemma {:induction false} MadeOfDefined(steps: seq<Step>, w: nat)
    requires Ordered(steps)
    ensures MadeOf(steps, w).Some? ==> w in Defined(steps) && MadeOf(steps, w).value in Defined(steps)
  {
    if steps != [] {
      MadeOfDefined(steps[..|steps| - 1], w);
    }
  }

  lemma {:induction false} EquationsFrame(a: map<nat, nat>, b: map<nat, nat>, steps: seq<Step>)
    requires Ordered(steps) && Agree(a, b, Defined(steps)) && Equations(a, steps)
    ensures Equations(b, steps)
  {
    if steps != [] {
      var before, s := steps[..|steps| - 1], steps[|steps| - 1];
      EquationsFrame(a, b, before);
      match s {
        case Get(_, handler, name) => BoundFrame(a, b, before, At(a, handler), name);
        case Element(_, vector) => MadeOfDefined(before, At(a, vector));
        case _ =>
      }
    }
  }

  /** The equations determine the map. */
  lemma {:induction false} EquationsUnique(a: map<nat, nat>, b: map<nat, nat>, steps: seq<Step>)
    requires Ordered(steps) && Equations(a, steps) && Equations(b, steps)
    ensures Agree(a, b, Defined(steps))
  {
    if steps != [] {
      var before, s := steps[..|steps| - 1], steps[|steps| - 1];
      EquationsUnique(a, b, before);
      match s {
        case Get(_, handler, name) => BoundFrame(a, b, before, At(a, handler), name);
        case Element(_, vector) => MadeOfDefined(before, At(a, vector));
        case _ =>
      }
    }
  }

  // ----- The walk establishes it -----

  ghost predicate Idempotent(ids: map<nat, nat>) {
    forall v :: At(ids, At(ids, v)) == At(ids, v)
  }

  ghost predicate CompsOk(m: Maps, steps: seq<Step>) {
    && (forall c :: c in m.comps ==> c == 0 || c in m.ids)
    && (forall c, name ::
          && (name in CompAt(m.comps, c) <==> Bound(m.ids, steps, c, name).Some?)
          && (name in CompAt(m.comps, c) ==> CompAt(m.comps, c)[name] == Meant(m.ids, Bound(m.ids, steps, c, name), 0)))
  }

  ghost predicate VectorsOk(m: Maps, steps: seq<Step>) {
    && (forall w :: w in m.vectors ==> w in m.ids)
    && (forall w :: At(m.vectors, w) == Meant(m.ids, MadeOf(steps, w), 0))
  }

  ghost predicate Resolved(m: Maps, steps: seq<Step>) {
    && m.ids.Keys == Entered(steps) && 0 !in m.ids
    && Idempotent(m.ids)
    && CompsOk(m, steps)
    && VectorsOk(m, steps)
    && Equations(m.ids, steps)
  }

  lemma {:induction false} InsertedFields(m: map<string, nat>, fields: seq<Field>, ids: map<nat, nat>, name: string)
    ensures var m' := InsertFields(m, fields, ids);
            && (name in m' <==> name in m || Named(fields, name).Some?)
            && (name in m' ==> m'[name] == if name in m then m[name] else Meant(ids, Named(fields, name), 0))
    decreases |fields|
  {
    if fields != [] {
      InsertedFields(Insert(m, fields[0].name, At(ids, fields[0].value)), fields[1..], ids, name);
    }
  }

  const EMPTY := Maps(map[], map[], map[])

  function BuildMaps(steps: seq<Step>): Maps {
    DoAll(EMPTY, steps)
  }

  /** After every step of the walk the map resolves what it has seen. */
  lemma {:induction false} WalkResolves(steps: seq<Step>)
    requires Ordered(steps)
    ensures Resolved(BuildMaps(steps), steps)
  {
    if steps != [] {
      WalkResolves(steps[..|steps| - 1]);
      StepResolves(BuildMaps(steps[..|steps| - 1]), steps[..|steps| - 1], steps[|steps| - 1]);
      assert steps == steps[..|steps| - 1] + [steps[|steps| - 1]];
    }
  }

  lemma Target(ids: map<nat, nat>, v: nat)
    requires Idempotent(ids)
    ensures At(ids, At(ids, v)) == At(ids, v)
    ensures At(ids, v) == 0 || At(ids, v) in ids
  {
  }

  lemma CompEntry(m: Maps, steps: seq<Step>, c: nat, name: string)
    requires CompsOk(m, steps)
    ensures name in CompAt(m.comps, c) <==> Bound(m.ids, steps, c, name).Some?
    ensures name in CompAt(m.comps, c) ==> CompAt(m.comps, c)[name] == Meant(m.ids, Bound(m.ids, steps, c, name), 0)
  {
  }

  /** A step leaves what it knows about the values seen before, and its own entry is right. */
  lemma StepIds(m: Maps, before: seq<Step>, s: Step)
    requires Ordered(before + [s]) && Resolved(m, before)
    ensures var ids := Do(m, s).ids;
            && ids.Keys == Entered(before) + s.Enters() && 0 !in ids
            && Agree(m.ids, ids, Defined(before))
            && Idempotent(ids)
            && Equation(ids, before, s)
  {
    var ids := Do(m, s).ids;
    Last(before, s);
    EnteredDefined(before);
    match s {
      case Get(v, handler, name) => GetIds(m, before, s);
      case Element(v, vector) => ElementIds(m, before, s);
      case Alias(v, same) =>
        Target(m.ids, same);
        SameOrNew(m.ids, ids, v);
      case Add(_, _) =>
      case Unbound(_) =>
      case _ => SameOrNew(m.ids, ids, s.v);
    }
  }

  lemma GetIds(m: Maps, before: seq<Step>, s: Step)
    requires Ordered(before + [s]) && Resolved(m, before) && s.Get?
    ensures Idempotent(Do(m, s).ids) && Equation(Do(m, s).ids, before, s)
  {
    var ids, c := Do(m, s).ids, At(m.ids, s.handler);
    Last(before, s);
    EnteredDefined(before);
    BoundFrame(m.ids, ids, before, c, s.name);
    CompEntry(m, before, c, s.name);
    Target(m.ids, s.handler);
    var o := Bound(m.ids, before, c, s.name);
    if o.Some? {
      Target(m.ids, o.value);
    }
    SameOrNew(m.ids, ids, s.v);
  }

  lemma ElementIds(m: Maps, before: seq<Step>, s: Step)
    requires Ordered(before + [s]) && Resolved(m, before) && s.Element?
    ensures Idempotent(Do(m, s).ids) && Equation(Do(m, s).ids, before, s)
  {
    var ids, w := Do(m, s).ids, At(m.ids, s.vector);
    Last(before, s);
    EnteredDefined(before);
    MadeOfDefined(before, w);
    Target(m.ids, s.vector);
    var o := MadeOf(before, w);
    if o.Some? {
      Target(m.ids, o.value);
    }
    SameOrNew(m.ids, ids, s.v);
  }

  /** A new entry for the value itself, the null value or something that stands for itself. */
  lemma SameOrNew(ids: map<nat, nat>, ids': map<nat, nat>, v: nat)
    requires Idempotent(ids) && v !in ids && v != 0 && v in ids' && ids' == ids[v := ids'[v]]
    requires ids'[v] == v || ids'[v] == At(ids, ids'[v])
    ensures Idempotent(ids')
  {
    forall w ensures At(ids', At(ids', w)) == At(ids', w) {
      Target(ids, w);
      Target(ids, ids'[v]);
    }
  }

  lemma Last(before: seq<Step>, s: Step)
    ensures var steps := before + [s]; steps[..|steps| - 1] == before && steps[|steps| - 1] == s
  {
  }

  lemma StepComps(m: Maps, before: seq<Step>, s: Step)
    requires Ordered(before + [s]) && Resolved(m, before)
    ensures CompsOk(Do(m, s), before + [s])
  {
    var m', steps := Do(m, s), before + [s];
    Last(before, s);
    StepIds(m, before, s);
    if s.Add? || s.Get? {
      Target(m.ids, s.handler);
    }
    forall c, name
      ensures name in CompAt(m'.comps, c) <==> Bound(m'.ids, steps, c, name).Some?
      ensures name in CompAt(m'.comps, c) ==>
                CompAt(m'.comps, c)[name] == Meant(m'.ids, Bound(m'.ids, steps, c, name), 0)
    {
      StepEntry(m, before, s, c, name);
    }
  }

  lemma StepEntry(m: Maps, before: seq<Step>, s: Step, c: nat, name: string)
    requires Ordered(before + [s]) && Resolved(m, before)
    ensures var m', steps := Do(m, s), before + [s];
            && (name in CompAt(m'.comps, c) <==> Bound(m'.ids, steps, c, name).Some?)
            && (name in CompAt(m'.comps, c) ==>
                  CompAt(m'.comps, c)[name] == Meant(m'.ids, Bound(m'.ids, steps, c, name), 0))
  {
    var m', steps := Do(m, s), before + [s];
    Last(before, s);
    EnteredDefined(before);
    StepIds(m, before, s);
    BoundFrame(m.ids, m'.ids, before, c, name);
    CompEntry(m, before, c, name);
    if s.Create? {
      InsertedFields(map[], s.fields, m.ids, name);
      NamedIsUsed(s.fields, name);
    } else if s.Add? {
      InsertedFields(CompAt(m.comps, c), s.fields, m.ids, name);
      NamedIsUsed(s.fields, name);
    }
  }

  lemma StepVectors(m: Maps, before: seq<Step>, s: Step)
    requires Ordered(before + [s]) && Resolved(m, before)
    ensures VectorsOk(Do(m, s), before + [s])
  {
    var m', steps := Do(m, s), before + [s];
    Last(before, s);
    EnteredDefined(before);
    StepIds(m, before, s);
    forall w ensures At(m'.vectors, w) == Meant(m'.ids, MadeOf(steps, w), 0) {
      MadeOfDefined(before, w);
    }
  }

  lemma StepResolves(m: Maps, before: seq<Step>, s: Step)
    requires Ordered(before + [s]) && Resolved(m, before)
    ensures Resolved(Do(m, s), before + [s])
  {
    var m', steps := Do(m, s), before + [s];
    Last(before, s);
    StepIds(m, before, s);
    StepComps(m, before, s);
    StepVectors(m, before, s);
    EquationsFrame(m.ids, m'.ids, before);
  }

  // ----- Region-structured programs -----

  /** The values defined by the operations of a block themselves. */
  function Results(nodes: seq<Node>): set<nat> {
    if nodes == [] then {} else ResultsOf(nodes[0]) + Results(nodes[1..])
  }

  function SetOf(vs: seq<nat>): set<nat> {
    set v | v in vs
  }

  function ResultsOf(n: Node): set<nat> {
    match n
    case Plain(results) => SetOf(results)
    case CreateComp(result, _) => {result}
    case AddComp(_, _) => {}
    case GetComp(result, _, _) => {result}
    case Splat(result, _) => {result}
    case Extract(result, _) => {result}
    case Launch(done, results, _, _, _, _) => {done} + SetOf(results)
    case Loop(_, results, _, _, _, _) => SetOf(results)
  }

  /** Every use is of a value defined earlier in the same block or in one around it. */
  predicate Scoped(nodes: seq<Node>, scope: set<nat>)
    decreases nodes
  {
    nodes == [] || (ScopedNode(nodes[0], scope) && Scoped(nodes[1..], scope + ResultsOf(nodes[0])))
  }

  predicate ScopedNode(n: Node, scope: set<nat>)
    decreases n
  {
    match n
    case Plain(_) => true
    case CreateComp(_, fields) => ValuesOf(fields) <= scope
    case AddComp(handler, fields) => handler in scope && ValuesOf(fields) <= scope
    case GetComp(_, handler, _) => handler in scope
    case Splat(_, element) => element in scope
    case Extract(_, vector) => vector in scope
    case Launch(_, _, args, operands, body, returned) =>
      && SetOf(operands) <= scope
      && Scoped(body, scope + SetOf(args))
      && SetOf(returned) <= scope + SetOf(args) + Results(body)
    case Loop(iv, _, iterArgs, inits, body, yielded) =>
      && SetOf(inits) <= scope
      && Scoped(body, scope + {iv} + SetOf(iterArgs))
      && SetOf(yielded) <= scope + {iv} + SetOf(iterArgs) + Results(body)
  }

  /** No value is defined twice. */
  ghost predicate Single(steps: seq<Step>) {
    forall i, j :: 0 <= i < j < |steps| ==> steps[i].Defines() !! steps[j].Defines()
  }

  ghost predicate UsesDefined(steps: seq<Step>, before: set<nat>) {
    if steps == [] then true
    else
      var n := |steps| - 1;
      UsesDefined(steps[..n], before) && steps[n].Uses() <= before + Defined(steps[..n])
  }

  lemma {:induction false} DefinedConcat(a: seq<Step>, b: seq<Step>)
    ensures Defined(a + b) == Defined(a) + Defined(b)
  {
    if b == [] {
      assert a + b == a;
    } else {
      var b', s := b[..|b| - 1], b[|b| - 1];
      DefinedConcat(a, b');
      assert (a + b)[..|a + b| - 1] == a + b';
    }
  }

  lemma {:induction false} EnteredConcat(a: seq<Step>, b: seq<Step>)
    ensures Entered(a + b) == Entered(a) + Entered(b)
  {
    if b == [] {
      assert a + b == a;
    } else {
      EnteredConcat(a, b[..|b| - 1]);
      assert (a + b)[..|a + b| - 1] == a + b[..|b| - 1];
    }
  }

  lemma {:induction false} UsesConcat(a: seq<Step>, b: seq<Step>, before: set<nat>)
    requires UsesDefined(a, before) && UsesDefined(b, before + Defined(a))
    ensures UsesDefined(a + b, before)
  {
    if b == [] {
      assert a + b == a;
    } else {
      var n := |b| - 1;
      UsesConcat(a, b[..n], before);
      DefinedConcat(a, b[..n]);
      assert (a + b)[..|a + b| - 1] == a + b[..n];
    }
  }

  lemma {:induction false} DefinedAliased(vs: seq<nat>, to: seq<nat>, steps: seq<Step>)
    requires |vs| == |to| == |steps|
    requires forall k :: 0 <= k < |vs| ==> steps[k] == Alias(vs[k], to[k]) || steps[k] == Own(vs[k])
    ensures Defined(steps) == SetOf(vs)
  {
    if vs != [] {
      var n := |vs| - 1;
      DefinedAliased(vs[..n], to[..n], steps[..n]);
      assert vs == vs[..n] + [vs[n]];
    }
  }

  lemma UsesAliased(vs: seq<nat>, to: seq<nat>, before: set<nat>)
    requires |vs| == |to| && SetOf(to) <= before
    ensures UsesDefined(Aliased(vs, to), before) && Defined(Aliased(vs, to)) == SetOf(vs)
    ensures UsesDefined(Owns(vs), before) && Defined(Owns(vs)) == SetOf(vs)
  {
    DefinedAliased(vs, to, Aliased(vs, to));
    DefinedAliased(vs, vs, Owns(vs));
    assert forall k :: 0 <= k < |to| ==> to[k] in SetOf(to);
    UsesAvailable(Aliased(vs, to), before);
    UsesAvailable(Owns(vs), before);
  }

  lemma OneUse(s: Step, before: set<nat>)
    requires s.Uses() <= before
    ensures UsesDefined([s], before) && Defined([s]) == s.Defines()
  {
    var none := [s][..0];
    assert none == [] && UsesDefined(none, before) && Defined(none) == {};
  }

  lemma {:induction false} UsesAvailable(steps: seq<Step>, before: set<nat>)
    requires forall k :: 0 <= k < |steps| ==> steps[k].Uses() <= before
    ensures UsesDefined(steps, before)
  {
    if steps != [] {
      UsesAvailable(steps[..|steps| - 1], before);
    }
  }

  /** In the order of the walk, uses come after definitions too. */
  lemma {:induction false} ScopedUses(nodes: seq<Node>, scope: set<nat>, before: set<nat>)
    requires Matched(nodes) && Scoped(nodes, scope) && scope <= before
    ensures UsesDefined(Steps(nodes), before)
    ensures Results(nodes) <= Defined(Steps(nodes))
    decreases nodes
  {
    if nodes != [] {
      var first, rest := NodeSteps(nodes[0]), Steps(nodes[1..]);
      ScopedNodeUses(nodes[0], scope, before);
      ScopedUses(nodes[1..], scope + ResultsOf(nodes[0]), before + Defined(first));
      UsesConcat(first, rest, before);
      DefinedConcat(first, rest);
    }
  }

  lemma {:induction false} ScopedNodeUses(n: Node, scope: set<nat>, before: set<nat>)
    requires MatchedNode(n) && ScopedNode(n, scope) && scope <= before
    ensures UsesDefined(NodeSteps(n), before)
    ensures ResultsOf(n) <= Defined(NodeSteps(n))
    decreases n
  {
    match n {
      case Plain(results) =>
        DefinedAliased(results, results, Owns(results));
        OwnsUseNothing(results, before);
      case Launch(done, results, args, operands, body, returned) =>
        ScopedUses(body, scope + SetOf(args), before + SetOf(args));
        hide Scoped;
        LaunchUses(n, before);
      case Loop(iv, results, iterArgs, inits, body, yielded) =>
        ScopedUses(body, scope + {iv} + SetOf(iterArgs), before + {iv} + SetOf(iterArgs));
        hide Scoped;
        LoopUses(n, before);
      case _ =>
        assert NodeSteps(n) == [NodeSteps(n)[0]];
        OneUse(NodeSteps(n)[0], before);
    }
  }

  lemma LoopHead(iv: nat, iterArgs: seq<nat>, before: set<nat>)
    ensures var head := [Unbound(iv)] + Owns(iterArgs);
            UsesDefined(head, before) && before + Defined(head) == before + {iv} + SetOf(iterArgs)
  {
    var first := [Unbound(iv)];
    OneUse(first[0], before);
    hide UsesDefined, Defined, SetOf, Owns, Aliased;
    OwnsUseNothing(iterArgs, before + Defined(first));
    UsesAliased(iterArgs, iterArgs, SetOf(iterArgs));
    UsesConcat(first, Owns(iterArgs), before);
    DefinedConcat(first, Owns(iterArgs));
  }

  lemma LoopUses(n: Node, before: set<nat>)
    requires n.Loop? && MatchedNode(n) && SetOf(n.inits) <= before
    requires UsesDefined(Steps(n.body), before + {n.iv} + SetOf(n.iterArgs))
    requires SetOf(n.yielded) <= before + {n.iv} + SetOf(n.iterArgs) + Defined(Steps(n.body))
    ensures UsesDefined(NodeSteps(n), before)
    ensures ResultsOf(n) <= Defined(NodeSteps(n))
  {
    var head, inner, tail := [Unbound(n.iv)] + Owns(n.iterArgs), Steps(n.body), Aliased(n.results, n.yielded);
    assert NodeSteps(n) == head + inner + tail;
    assert ResultsOf(n) == SetOf(n.results);
    hide *;
    LoopHead(n.iv, n.iterArgs, before);
    UsesAliased(n.results, n.yielded, before + Defined(head) + Defined(inner));
    RegionUses(head, inner, tail, before);
  }

  lemma OwnsUseNothing(vs: seq<nat>, before: set<nat>)
    ensures UsesDefined(Owns(vs), before)
  {
    UsesAvailable(Owns(vs), before);
  }

  lemma LaunchUses(n: Node, before: set<nat>)
    requires n.Launch? && MatchedNode(n) && SetOf(n.operands) <= before
    requires UsesDefined(Steps(n.body), before + SetOf(n.args))
    requires SetOf(n.returned) <= before + SetOf(n.args) + Defined(Steps(n.body))
    ensures UsesDefined(NodeSteps(n), before)
    ensures ResultsOf(n) <= Defined(NodeSteps(n))
  {
    hide UsesDefined, Defined, SetOf, Aliased, Steps;
    UsesAliased(n.args, n.operands, before);
    HandedOut(n.done, n.results, n.returned, before + SetOf(n.args) + Defined(Steps(n.body)));
    var tail := [Own(n.done)] + Aliased(n.results, n.returned);
    RegionUses(Aliased(n.args, n.operands), Steps(n.body), tail, before);
    assert NodeSteps(n) == Aliased(n.args, n.operands) + Steps(n.body) + tail;
  }

  lemma HandedOut(done: nat, results: seq<nat>, returned: seq<nat>, seen: set<nat>)
    requires |results| == |returned| && SetOf(returned) <= seen
    ensures var tail := [Own(done)] + Aliased(results, returned);
            UsesDefined(tail, seen) && Defined(tail) == {done} + SetOf(results)
  {
    OneUse(Own(done), seen);
    UsesAliased(results, returned, seen + {done});
    UsesConcat([Own(done)], Aliased(results, returned), seen);
    DefinedConcat([Own(done)], Aliased(results, returned));
  }

  /** A region: its arguments first, then its body, then what it hands out. */
  lemma RegionUses(head: seq<Step>, inner: seq<Step>, tail: seq<Step>, before: set<nat>)
    requires UsesDefined(head, before) && UsesDefined(inner, before + Defined(head))
    requires UsesDefined(tail, before + Defined(head) + Defined(inner))
    ensures UsesDefined(head + inner + tail, before)
    ensures Defined(head + inner + tail) == Defined(head) + Defined(inner) + Defined(tail)
  {
    UsesConcat(head, inner, before);
    DefinedConcat(head, inner);
    assert before + Defined(head + inner) == before + Defined(head) + Defined(inner);
    UsesConcat(head + inner, tail, before);
    DefinedConcat(head + inner, tail);
  }

  lemma {:induction false} DefinedMembers(steps: seq<Step>, v: nat)
    ensures v in Defined(steps) <==> exists i :: 0 <= i < |steps| && v in steps[i].Defines()
  {
    if steps != [] {
      var before := steps[..|steps| - 1];
      DefinedMembers(before, v);
      if i :| 0 <= i < |steps| && v in steps[i].Defines() {
        assert i < |before| ==> before[i] == steps[i];
      }
      if v in Defined(before) {
        var i :| 0 <= i < |before| && v in before[i].Defines();
        assert steps[i] == before[i];
      }
    }
  }

  lemma {:induction false} SingleOrdered(steps: seq<Step>)
    requires Single(steps) && 0 !in Defined(steps) && UsesDefined(steps, {})
    ensures Ordered(steps)
  {
    if steps != [] {
      var before, last := steps[..|steps| - 1], steps[|steps| - 1];
      SingleOrdered(before);
      assert forall i :: 0 <= i < |before| ==> before[i] == steps[i] && steps[i].Defines() !! last.Defines();
      forall v | v in last.Defines() ensures v !in Defined(before) {
        DefinedMembers(before, v);
      }
    }
  }

  /** A region-structured program in which every value is defined once and used in scope. */
  ghost predicate ValidProgram(args: seq<nat>, nodes: seq<Node>) {
    && Matched(nodes) && Scoped(nodes, SetOf(args))
    && Single(Owns(args) + Steps(nodes)) && 0 !in Defined(Owns(args) + Steps(nodes))
  }

  /** On every such program, the walk makes a map that is idempotent, that satisfies the
      equations of recursive resolution at every definition, and that is the only one to. */
  lemma AliasesResolved(args: seq<nat>, nodes: seq<Node>)
    requires ValidProgram(args, nodes)
    ensures var steps := Owns(args) + Steps(nodes);
            var ids := BuildMaps(steps).ids;
            && Ordered(steps)
            && ids.Keys == Entered(steps) && 0 !in ids
            && Idempotent(ids)
            && Equations(ids, steps)
            && forall other :: Equations(other, steps) ==> Agree(ids, other, Defined(steps))
  {
    var steps := Owns(args) + Steps(nodes);
    UsesAliased(args, args, SetOf(args));
    OwnsUseNothing(args, {});
    ScopedUses(nodes, SetOf(args), SetOf(args));
    assert {} + Defined(Owns(args)) == SetOf(args);
    UsesConcat(Owns(args), Steps(nodes), {});
    SingleOrdered(steps);
    WalkResolves(steps);
    forall other | Equations(other, steps) ensures Agree(BuildMaps(steps).ids, other, Defined(steps)) {
      EquationsUnique(BuildMaps(steps).ids, other, steps);
    }
  }

  /** A node of the program, at any depth. */
  predicate Within(n: Node, nodes: seq<Node>)
    decreases nodes
  {
    nodes != [] && (n == nodes[0] || WithinNode(n, nodes[0]) || Within(n, nodes[1..]))
  }

  predicate WithinNode(n: Node, outer: Node)
    decreases outer
  {
    match outer
    case Launch(_, _, _, _, body, _) => Within(n, body)
    case Loop(_, _, _, _, body, _) => Within(n, body)
    case _ => false
  }

  lemma {:induction false} StepsWithin(n: Node, nodes: seq<Node>, s: Step)
    requires Matched(nodes) && Within(n, nodes)
    ensures MatchedNode(n)
    ensures s in NodeSteps(n) ==> s in Steps(nodes)
    decreases nodes
  {
    if n == nodes[0] {
    } else if WithinNode(n, nodes[0]) {
      assert MatchedNode(nodes[0]);
      StepsWithin(n, nodes[0].body, s);
    } else {
      StepsWithin(n, nodes[1..], s);
    }
  }

  /** Every step's equation holds, with what the walk did before it. */
  lemma {:induction false} EquationAt(ids: map<nat, nat>, steps: seq<Step>, s: Step) returns (i: nat)
    requires Equations(ids, steps) && s in steps
    ensures i < |steps| && steps[i] == s && Equation(ids, steps[..i], s)
  {
    i := |steps| - 1;
    if s != steps[i] {
      var before := steps[..i];
      i := EquationAt(ids, before, s);
      assert before[..i] == steps[..i];
    }
  }

  /** Across the boundary of every launch and loop, at any depth, the map identifies what is
      passed in with what was passed, and what comes out with what was handed out. */
  lemma BoundariesResolved(args: seq<nat>, nodes: seq<Node>, n: Node)
    requires ValidProgram(args, nodes) && Within(n, nodes)
    ensures var ids := BuildMaps(Owns(args) + Steps(nodes)).ids;
            && MatchedNode(n)
            && (n.Launch? ==>
                  && At(ids, n.done) == n.done
                  && (forall k :: 0 <= k < |n.args| ==> At(ids, n.args[k]) == At(ids, n.operands[k]))
                  && (forall k :: 0 <= k < |n.results| ==> At(ids, n.results[k]) == At(ids, n.returned[k])))
            && (n.Loop? ==>
                  && (forall k :: 0 <= k < |n.iterArgs| ==> At(ids, n.iterArgs[k]) == n.iterArgs[k])
                  && (forall k :: 0 <= k < |n.results| ==> At(ids, n.results[k]) == At(ids, n.yielded[k])))
  {
    var steps := Owns(args) + Steps(nodes);
    var ids := BuildMaps(steps).ids;
    AliasesResolved(args, nodes);
    StepsWithin(n, nodes, Own(0));
    forall s | s in NodeSteps(n)
      ensures s.Own? ==> At(ids, s.v) == s.v
      ensures s.Alias? ==> At(ids, s.v) == At(ids, s.same)
    {
      StepsWithin(n, nodes, s);
      var i := EquationAt(ids, steps, s);
    }
    hide Steps, Defined, Equations, BuildMaps;
    BoundarySteps(n);
  }

  /** At any depth, a fetched component stands for what the field first bound to its name,
      earlier in the walk, stands for, and for itself if there is none; an extracted element
      stands for what the vector was made of; induction variables stand for nothing. */
  lemma FetchesResolved(args: seq<nat>, nodes: seq<Node>, n: Node) returns (i: nat)
    requires ValidProgram(args, nodes) && Within(n, nodes) && (n.GetComp? || n.Extract? || n.Loop?)
    ensures var steps := Owns(args) + Steps(nodes);
            var ids := BuildMaps(steps).ids;
            && i < |steps|
            && (n.GetComp? ==>
                  && steps[i] == Get(n.result, n.handler, n.name)
                  && At(ids, n.result) == Meant(ids, Bound(ids, steps[..i], At(ids, n.handler), n.name), n.result))
            && (n.Extract? ==>
                  && steps[i] == Element(n.result, n.vector)
                  && At(ids, n.result) == Meant(ids, MadeOf(steps[..i], At(ids, n.vector)), 0))
            && (n.Loop? ==> At(ids, n.iv) == 0)
  {
    var steps := Owns(args) + Steps(nodes);
    var s := if n.GetComp? then Get(n.result, n.handler, n.name)
             else if n.Extract? then Element(n.result, n.vector)
             else Unbound(n.iv);
    StepsWithin(n, nodes, s);
    assert s in NodeSteps(n) by {
      if n.Loop? {
        assert NodeSteps(n)[0] == s;
      }
    }
    AliasesResolved(args, nodes);
    i := EquationAt(BuildMaps(steps).ids, steps, s);
  }

  lemma BoundarySteps(n: Node)
    requires MatchedNode(n)
    ensures n.Launch? ==>
              && Own(n.done) in NodeSteps(n)
              && (forall k :: 0 <= k < |n.args| ==> Alias(n.args[k], n.operands[k]) in NodeSteps(n))
              && (forall k :: 0 <= k < |n.results| ==> Alias(n.results[k], n.returned[k]) in NodeSteps(n))
    ensures n.Loop? ==>
              && (forall k :: 0 <= k < |n.iterArgs| ==> Own(n.iterArgs[k]) in NodeSteps(n))
              && (forall k :: 0 <= k < |n.results| ==> Alias(n.results[k], n.yielded[k]) in NodeSteps(n))
  {
    match n {
      case Launch(done, results, args, operands, body, returned) =>
        var head, tail := Aliased(args, operands), Aliased(results, returned);
        hide Steps;
        assert forall k :: 0 <= k < |args| ==> head[k] == Alias(args[k], operands[k]) && head[k] in head;
        assert forall k :: 0 <= k < |results| ==> tail[k] == Alias(results[k], returned[k]) && tail[k] in tail;
      case Loop(iv, results, iterArgs, inits, body, yielded) =>
        LoopBoundary([Unbound(iv)], Owns(iterArgs), Steps(body), Aliased(results, yielded));
      case _ =>
    }
  }

  lemma LoopBoundary(a: seq<Step>, b: seq<Step>, c: seq<Step>, d: seq<Step>)
    ensures forall k :: 0 <= k < |b| ==> b[k] in (a + b) + c + d
    ensures forall k :: 0 <= k < |d| ==> d[k] in (a + b) + c + d
  {
    var s := (a + b) + c + d;
    forall k | 0 <= k < |b| ensures b[k] in s {
      assert s[|a| + k] == b[k];
    }
    forall k | 0 <= k < |d| ensures d[k] in s {
      assert s[|a| + |b| + |c| + k] == d[k];
    }
  }

  // ----- What every operation of the program stands for -----

  /** Something is sought along the program, up to where v is fetched or extracted: the first
      field bound to a name of a component, or what a vector was made of. */
  datatype Sought = FieldOf(comp: nat, name: string) | PartOf(vector: nat)

  datatype Search = Passed | Reached | Found(value: nat)

  /** In program order, regions before what follows them. */
  function SearchNodes(ids: map<nat, nat>, nodes: seq<Node>, what: Sought, v: nat): Search
    decreases nodes
  {
    if nodes == [] then Passed
    else
      var first := SearchNode(ids, nodes[0], what, v);
      if first.Passed? then SearchNodes(ids, nodes[1..], what, v) else first
  }

  function SearchNode(ids: map<nat, nat>, n: Node, what: Sought, v: nat): Search
    decreases n
  {
    match n
    case Plain(_) => Passed
    case CreateComp(result, fields) =>
      if what.FieldOf? && result == what.comp then FirstField(fields, what.name) else Passed
    case AddComp(handler, fields) =>
      if what.FieldOf? && At(ids, handler) == what.comp then FirstField(fields, what.name) else Passed
    case Splat(result, element) => if what.PartOf? && result == what.vector then Found(element) else Passed
    case GetComp(result, _, _) => if result == v then Reached else Passed
    case Extract(result, _) => if result == v then Reached else Passed
    case Launch(_, _, _, _, body, _) => SearchNodes(ids, body, what, v)
    case Loop(_, _, _, _, body, _) => SearchNodes(ids, body, what, v)
  }

  function FirstField(fields: seq<Field>, name: string): (found: Search)
    ensures found.Passed? <==> forall k :: 0 <= k < |fields| ==> fields[k].name != name
    ensures !found.Passed? ==> exists k :: IsFirst(fields, name, k) && found == Found(fields[k].value)
  {
    match Named(fields, name)
    case None =>
      NamedFirst(fields, name);
      Passed
    case Some(value) =>
      NamedFirst(fields, name);
      Found(value)
  }

  predicate IsFirst(fields: seq<Field>, name: string, k: int) {
    0 <= k < |fields| && fields[k].name == name && forall j :: 0 <= j < k ==> fields[j].name != name
  }

  lemma {:induction false} NamedFirst(fields: seq<Field>, name: string)
    ensures Named(fields, name).None? <==> forall k :: 0 <= k < |fields| ==> fields[k].name != name
    ensures Named(fields, name).Some? ==>
              exists k :: IsFirst(fields, name, k) && Named(fields, name).value == fields[k].value
  {
    if fields != [] && fields[0].name != name {
      var rest := fields[1..];
      NamedFirst(rest, name);
      assert forall k :: 1 <= k < |fields| ==> fields[k] == rest[k - 1];
      if k :| IsFirst(rest, name, k) && Named(rest, name).value == rest[k].value {
        assert IsFirst(fields, name, k + 1);
      }
    }
  }

  /** What the results of an operation of the program stand for. */
  predicate Meaning(ids: map<nat, nat>, nodes: seq<Node>, n: Node) {
    match n
    case Plain(results) => forall k :: 0 <= k < |results| ==> StandsForItself(ids, results[k])
    case CreateComp(result, _) => StandsForItself(ids, result)
    case AddComp(_, _) => true
    case Splat(result, _) => StandsForItself(ids, result)
    case GetComp(result, handler, name) =>
      var found := SearchNodes(ids, nodes, FieldOf(At(ids, handler), name), result);
      !found.Passed? && result in ids && ids[result] == if found.Found? then At(ids, found.value) else result
    case Extract(result, vector) =>
      var found := SearchNodes(ids, nodes, PartOf(At(ids, vector)), result);
      !found.Passed? && result in ids && ids[result] == if found.Found? then At(ids, found.value) else 0
    case Launch(done, results, args, operands, _, returned) =>
      && StandsForItself(ids, done)
      && SameMeanings(ids, args, operands) && SameMeanings(ids, results, returned)
    case Loop(iv, results, iterArgs, _, _, yielded) =>
      && iv !in ids
      && (forall k :: 0 <= k < |iterArgs| ==> StandsForItself(ids, iterArgs[k]))
      && SameMeanings(ids, results, yielded)
  }

  predicate StandsForItself(ids: map<nat, nat>, v: nat) {
    v in ids && ids[v] == v
  }

  predicate SameMeanings(ids: map<nat, nat>, vs: seq<nat>, to: seq<nat>) {
    |vs| == |to| && forall k :: 0 <= k < |vs| ==> vs[k] in ids && ids[vs[k]] == At(ids, to[k])
  }

  /** The same search along the steps of the walk. */
  function SearchStep(ids: map<nat, nat>, s: Step, what: Sought, v: nat): Search {
    match s
    case Create(c, fields) => if what.FieldOf? && c == what.comp then FirstField(fields, what.name) else Passed
    case Add(handler, fields) =>
      if what.FieldOf? && At(ids, handler) == what.comp then FirstField(fields, what.name) else Passed
    case Spread(w, element) => if what.PartOf? && w == what.vector then Found(element) else Passed
    case Get(r, _, _) => if r == v then Reached else Passed
    case Element(r, _) => if r == v then Reached else Passed
    case _ => Passed
  }

  function SearchSteps(ids: map<nat, nat>, steps: seq<Step>, what: Sought, v: nat): Search {
    if steps == [] then Passed
    else
      var before := SearchSteps(ids, steps[..|steps| - 1], what, v);
      if before.Passed? then SearchStep(ids, steps[|steps| - 1], what, v) else before
  }

  lemma {:induction false} SearchConcat(ids: map<nat, nat>, a: seq<Step>, b: seq<Step>, what: Sought, v: nat)
    ensures SearchSteps(ids, a + b, what, v)
         == if SearchSteps(ids, a, what, v).Passed? then SearchSteps(ids, b, what, v) else SearchSteps(ids, a, what, v)
  {
    if b == [] {
      assert a + b == a;
    } else {
      SearchConcat(ids, a, b[..|b| - 1], what, v);
      assert (a + b)[..|a + b| - 1] == a + b[..|b| - 1];
    }
  }

  lemma {:induction false} SearchQuiet(ids: map<nat, nat>, steps: seq<Step>, what: Sought, v: nat)
    requires forall k :: 0 <= k < |steps| ==> steps[k].Own? || steps[k].Alias? || steps[k].Unbound?
    ensures SearchSteps(ids, steps, what, v) == Passed
  {
    if steps != [] {
      SearchQuiet(ids, steps[..|steps| - 1], what, v);
    }
  }

  lemma {:induction false} SearchTree(ids: map<nat, nat>, nodes: seq<Node>, what: Sought, v: nat)
    requires Matched(nodes)
    ensures SearchSteps(ids, Steps(nodes), what, v) == SearchNodes(ids, nodes, what, v)
    decreases nodes
  {
    if nodes != [] {
      SearchTreeNode(ids, nodes[0], what, v);
      SearchTree(ids, nodes[1..], what, v);
      SearchConcat(ids, NodeSteps(nodes[0]), Steps(nodes[1..]), what, v);
    }
  }

  lemma {:induction false} SearchTreeNode(ids: map<nat, nat>, n: Node, what: Sought, v: nat)
    requires MatchedNode(n)
    ensures SearchSteps(ids, NodeSteps(n), what, v) == SearchNode(ids, n, what, v)
    decreases n
  {
    match n {
      case Plain(results) =>
        SearchQuiet(ids, Owns(results), what, v);
      case Launch(done, results, args, operands, body, returned) =>
        SearchTree(ids, body, what, v);
        SearchRegion(ids, Aliased(args, operands), Steps(body), [Own(done)] + Aliased(results, returned), what, v);
        assert NodeSteps(n) == (Aliased(args, operands) + Steps(body)) + ([Own(done)] + Aliased(results, returned));
      case Loop(iv, results, iterArgs, inits, body, yielded) =>
        SearchTree(ids, body, what, v);
        SearchRegion(ids, [Unbound(iv)] + Owns(iterArgs), Steps(body), Aliased(results, yielded), what, v);
      case _ =>
        var s := NodeSteps(n)[0];
        assert NodeSteps(n) == [s];
        assert SearchSteps(ids, [s][..0], what, v) == Passed;
    }
  }

  lemma SearchRegion(ids: map<nat, nat>, head: seq<Step>, inner: seq<Step>, tail: seq<Step>, what: Sought, v: nat)
    requires forall k :: 0 <= k < |head| ==> head[k].Own? || head[k].Alias? || head[k].Unbound?
    requires forall k :: 0 <= k < |tail| ==> tail[k].Own? || tail[k].Alias? || tail[k].Unbound?
    ensures SearchSteps(ids, (head + inner) + tail, what, v) == SearchSteps(ids, inner, what, v)
  {
    SearchQuiet(ids, head, what, v);
    SearchQuiet(ids, tail, what, v);
    SearchConcat(ids, head, inner, what, v);
    SearchConcat(ids, head + inner, tail, what, v);
  }

  function FoundBefore(ids: map<nat, nat>, before: seq<Step>, what: Sought): Option {
    match what
    case FieldOf(c, name) => Bound(ids, before, c, name)
    case PartOf(w) => MadeOf(before, w)
  }

  /** Up to where v is defined, the search finds what the equations speak of. */
  lemma {:induction false} SearchBefore(ids: map<nat, nat>, before: seq<Step>, what: Sought, v: nat)
    requires Ordered(before) && v !in Defined(before)
    ensures var o := FoundBefore(ids, before, what);
            SearchSteps(ids, before, what, v) == if o.Some? then Found(o.value) else Passed
  {
    if before != [] {
      var earlier := before[..|before| - 1];
      SearchBefore(ids, earlier, what, v);
      if what.PartOf? {
        MadeOfDefined(earlier, what.vector);
      }
    }
  }

  lemma SearchAt(ids: map<nat, nat>, steps: seq<Step>, i: nat, what: Sought)
    requires Ordered(steps) && i < |steps| && (steps[i].Get? || steps[i].Element?)
    ensures var o := FoundBefore(ids, steps[..i], what);
            SearchSteps(ids, steps, what, steps[i].v) == if o.Some? then Found(o.value) else Reached
  {
    var v := steps[i].v;
    OrderedAt(steps, i);
    assert steps == steps[..i] + steps[i..];
    OrderedPrefix(steps[..i], steps[i..]);
    SearchBefore(ids, steps[..i], what, v);
    SearchConcat(ids, steps[..i], steps[i..], what, v);
    assert steps[i..] == [steps[i]] + steps[i + 1..];
    SearchConcat(ids, [steps[i]], steps[i + 1..], what, v);
    assert SearchSteps(ids, [steps[i]][..0], what, v) == Passed;
  }

  /** Every operation of the program, at any depth, has its meaning in the map. */
  lemma NodesResolved(args: seq<nat>, nodes: seq<Node>, n: Node)
    requires ValidProgram(args, nodes) && Within(n, nodes)
    ensures Meaning(BuildMaps(Owns(args) + Steps(nodes)).ids, nodes, n)
  {
    StepsWithin(n, nodes, Own(0));
    if n.GetComp? || n.Extract? {
      FetchMeaning(args, nodes, n);
    } else {
      var ids := BuildMaps(Owns(args) + Steps(nodes)).ids;
      hide *;
      forall s | s in NodeSteps(n) ensures StepMeaning(ids, s) {
        StepsMeant(args, nodes, n, s);
      }
      MeaningOfSteps(ids, nodes, n);
    }
  }

  predicate StepMeaning(ids: map<nat, nat>, s: Step) {
    && (s.Own? || s.Create? || s.Spread? ==> StandsForItself(ids, s.v))
    && (s.Alias? ==> s.v in ids && At(ids, s.v) == At(ids, s.same))
    && (s.Unbound? ==> s.v !in ids)
  }

  lemma StepsMeant(args: seq<nat>, nodes: seq<Node>, n: Node, s: Step)
    requires ValidProgram(args, nodes) && Within(n, nodes) && MatchedNode(n) && s in NodeSteps(n)
    ensures StepMeaning(BuildMaps(Owns(args) + Steps(nodes)).ids, s)
  {
    var steps := Owns(args) + Steps(nodes);
    AliasesResolved(args, nodes);
    StepsWithin(n, nodes, s);
    var i := EquationAt(BuildMaps(steps).ids, steps, s);
    EntersMember(steps, i);
    if s.Unbound? {
      UnboundNotEntered(steps, i);
    }
  }

  lemma FetchMeaning(args: seq<nat>, nodes: seq<Node>, n: Node)
    requires ValidProgram(args, nodes) && Within(n, nodes) && (n.GetComp? || n.Extract?)
    ensures Meaning(BuildMaps(Owns(args) + Steps(nodes)).ids, nodes, n)
  {
    var steps := Owns(args) + Steps(nodes);
    var ids := BuildMaps(steps).ids;
    AliasesResolved(args, nodes);
    var i := FetchesResolved(args, nodes, n);
    EntersMember(steps, i);
    assert n.result in ids;
    hide Equations, BuildMaps, ValidProgram, Entered;
    var what := if n.GetComp? then FieldOf(At(ids, n.handler), n.name) else PartOf(At(ids, n.vector));
    SearchAt(ids, steps, i, what);
    SearchQuiet(ids, Owns(args), what, n.result);
    SearchConcat(ids, Owns(args), Steps(nodes), what, n.result);
    SearchTree(ids, nodes, what, n.result);
    hide Steps, SearchSteps, SearchNodes, Defined, Ordered;
  }

  lemma {:induction false} UnboundNotEntered(steps: seq<Step>, i: nat)
    requires Ordered(steps) && i < |steps| && steps[i].Unbound?
    ensures steps[i].v in Defined(steps) && steps[i].v !in Entered(steps)
  {
    var before := steps[..|steps| - 1];
    if i < |before| {
      UnboundNotEntered(before, i);
    } else {
      EnteredDefined(before);
    }
  }

  lemma MeaningOfSteps(ids: map<nat, nat>, nodes: seq<Node>, n: Node)
    requires MatchedNode(n) && !n.GetComp? && !n.Extract?
    requires forall s :: s in NodeSteps(n) ==> StepMeaning(ids, s)
    ensures Meaning(ids, nodes, n)
  {
    BoundarySteps(n);
    match n {
      case Plain(results) =>
        forall k | 0 <= k < |results| ensures StandsForItself(ids, results[k]) {
          assert Owns(results)[k] in NodeSteps(n);
        }
      case Loop(iv, _, _, _, _, _) =>
        assert NodeSteps(n)[0] == Unbound(iv) && Unbound(iv) in NodeSteps(n);
      case Launch(_, _, _, _, _, _) =>
      case CreateComp(result, fields) => assert Create(result, fields) in NodeSteps(n);
      case Splat(result, element) => assert Spread(result, element) in NodeSteps(n);
      case AddComp(_, _) =>
    }
  }

  lemma {:induction false} EntersMember(steps: seq<Step>, i: nat)
    requires i < |steps|
    ensures steps[i].Enters() <= Entered(steps)
  {
    if i < |steps| - 1 {
      EntersMember(steps[..|steps| - 1], i);
    }
  }

  // ----- The walk itself -----

  lemma {:induction false} DoAllConcat(m: Maps, a: seq<Step>, b: seq<Step>)
    ensures DoAll(m, a + b) == DoAll(DoAll(m, a), b)
  {
    if b == [] {
      assert a + b == a;
    } else {
      DoAllConcat(m, a, b[..|b| - 1]);
      assert (a + b)[..|a + b| - 1] == a + b[..|b| - 1];
    }
  }

  lemma {:induction false} DoAllKeys(m: Maps, steps: seq<Step>)
    ensures DoAll(m, steps).ids.Keys == m.ids.Keys + Entered(steps)
  {
    if steps != [] {
      DoAllKeys(m, steps[..|steps| - 1]);
      DoKeys(DoAll(m, steps[..|steps| - 1]), steps[|steps| - 1]);
      hide Do;
    }
  }

  lemma DoKeys(m: Maps, s: Step)
    ensures Do(m, s).ids.Keys == m.ids.Keys + s.Enters()
  {
  }

  lemma DoOne(m: Maps, s: Step)
    ensures DoAll(m, [s]) == Do(m, s)
  {
    assert [s][..0] == [];
  }

  lemma {:induction false} OrderedPrefix(a: seq<Step>, b: seq<Step>)
    requires Ordered(a + b)
    ensures Ordered(a)
  {
    if b == [] {
      assert a + b == a;
    } else {
      assert (a + b)[..|a + b| - 1] == a + b[..|b| - 1];
      OrderedPrefix(a, b[..|b| - 1]);
    }
  }

  /** What a step uses is defined before it, and what it defines is not. */
  lemma {:induction false} OrderedAt(steps: seq<Step>, i: nat)
    requires i < |steps| && Ordered(steps)
    ensures steps[i].Uses() <= Defined(steps[..i])
    ensures steps[i].Defines() !! Defined(steps[..i]) + {0}
  {
    if i < |steps| - 1 {
      var before := steps[..|steps| - 1];
      OrderedAt(before, i);
      assert before[..i] == steps[..i];
    }
  }

  lemma {:induction false} DefinedPrefix(steps: seq<Step>, i: nat, j: nat)
    requires i < j <= |steps|
    ensures Defined(steps[..i]) + steps[i].Defines() <= Defined(steps[..j])
    decreases j
  {
    assert steps[..j][..j - 1] == steps[..j - 1];
    if i < j - 1 {
      DefinedPrefix(steps, i, j - 1);
    }
  }

  lemma {:induction false} OwnsInserted(m: Maps, vs: seq<nat>, v: nat)
    ensures var m' := DoAll(m, Owns(vs));
            && m' == m.(ids := m'.ids)
            && (v in m'.ids <==> v in m.ids || v in vs)
            && (v in m'.ids ==> m'.ids[v] == if v in m.ids then m.ids[v] else v)
  {
    if vs != [] {
      var n := |vs| - 1;
      OwnsInserted(m, vs[..n], v);
      assert Owns(vs)[..n] == Owns(vs[..n]);
      assert vs == vs[..n] + [vs[n]];
    }
  }

  /** The entries while the results from k on still stand for themselves. */
  ghost predicate HalfHanded(ids: map<nat, nat>, exact: map<nat, nat>, rest: seq<nat>) {
    forall v :: && (v in ids <==> v in exact || v in rest)
                && (v in ids ==> ids[v] == if v in rest then v else exact[v])
  }

  lemma NoneLeft(ids: map<nat, nat>, exact: map<nat, nat>, rest: seq<nat>)
    requires rest == [] && HalfHanded(ids, exact, rest)
    ensures ids == exact
  {
  }

  lemma HandOne(ids: map<nat, nat>, exact: map<nat, nat>, rest: seq<nat>, x: nat)
    requires rest != [] && HalfHanded(ids, exact, rest) && rest[0] !in rest[1..]
    ensures HalfHanded(ids[rest[0] := x], exact[rest[0] := x], rest[1..])
  {
    var ids', exact' := ids[rest[0] := x], exact[rest[0] := x];
    assert rest == [rest[0]] + rest[1..];
    forall v ensures v in ids' <==> v in exact' || v in rest[1..]
             ensures v in ids' ==> ids'[v] == if v in rest[1..] then v else exact'[v] {
      assert v in rest <==> v == rest[0] || v in rest[1..];
    }
  }

  /** Results still to be handed out are new, and so are not handed out as well. */
  lemma LaterFresh(before: seq<Step>, results: seq<nat>, handed: seq<nat>, k: nat, j: nat)
    requires |results| == |handed| && k <= j < |results| && Ordered(before + Aliased(results, handed))
    ensures var seen := Defined(before + Aliased(results, handed)[..k]);
            results[j] !in seen && handed[k] in seen && (k < j ==> results[j] != results[k])
  {
    var steps := before + Aliased(results, handed);
    var at, later := |before| + k, |before| + j;
    hide Ordered, Defined;
    assert steps[..at] == before + Aliased(results, handed)[..k];
    assert steps[at] == Alias(results[k], handed[k]) && steps[later] == Alias(results[j], handed[j]);
    hide Aliased;
    OrderedAt(steps, at);
    OrderedAt(steps, later);
    if k < j {
      DefinedPrefix(steps, at, later);
    }
  }

  lemma HandNext(ids: map<nat, nat>, m: Maps, before: seq<Step>, results: seq<nat>, handed: seq<nat>, k: nat)
    requires |results| == |handed| && k < |results|
    requires Ordered(before + Aliased(results, handed)) && m.ids.Keys == Entered(before)
    requires HalfHanded(ids, DoAll(m, Aliased(results, handed)[..k]).ids, results[k..])
    ensures var exact := DoAll(m, Aliased(results, handed)[..k]);
            var exact' := DoAll(m, Aliased(results, handed)[..k + 1]);
            && exact' == exact.(ids := exact'.ids)
            && HalfHanded(ids[results[k] := At(ids, handed[k])], exact'.ids, results[k + 1..])
  {
    var tail, rest := Aliased(results, handed), results[k..];
    var exact := DoAll(m, tail[..k]);
    forall j | k <= j < |results|
      ensures results[j] !in Defined(before + tail[..k]) && handed[k] in Defined(before + tail[..k])
      ensures k < j ==> results[j] != results[k]
    {
      LaterFresh(before, results, handed, k, j);
    }
    DoAllKeys(m, tail[..k]);
    EnteredConcat(before, tail[..k]);
    EnteredDefined(before + tail[..k]);
    NextExact(m, results, handed, k);
    assert rest[1..] == results[k + 1..];
    hide DoAll, Ordered, Defined, Entered, Aliased;
    assert results[k] !in exact.ids;
    assert handed[k] !in rest && rest[0] !in rest[1..];
    assert At(ids, handed[k]) == At(exact.ids, handed[k]);
    HandOne(ids, exact.ids, rest, At(ids, handed[k]));
  }

  lemma AllOwn(m: Maps, before: seq<Step>, results: seq<nat>, handed: seq<nat>)
    requires |results| == |handed| && Ordered(before + Aliased(results, handed)) && m.ids.Keys == Entered(before)
    ensures var m' := DoAll(m, Owns(results));
            && m' == m.(ids := m'.ids)
            && DoAll(m, Aliased(results, handed)[..0]) == m
            && HalfHanded(m'.ids, m.ids, results[0..])
  {
    var ids := DoAll(m, Owns(results)).ids;
    assert before + Aliased(results, handed)[..0] == before;
    EnteredDefined(before);
    forall k | 0 <= k < |results| ensures results[k] !in m.ids {
      LaterFresh(before, results, handed, 0, k);
    }
    OwnsInserted(m, results, 0);
    forall v ensures v in ids <==> v in m.ids || v in results
             ensures v in ids ==> ids[v] == if v in results then v else m.ids[v] {
      OwnsInserted(m, results, v);
    }
  }

  lemma NextExact(m: Maps, results: seq<nat>, handed: seq<nat>, k: nat)
    requires |results| == |handed| && k < |results|
    ensures var exact := DoAll(m, Aliased(results, handed)[..k]);
            DoAll(m, Aliased(results, handed)[..k + 1])
            == exact.(ids := Insert(exact.ids, results[k], At(exact.ids, handed[k])))
  {
    var tail := Aliased(results, handed);
    assert tail[..k + 1][..k] == tail[..k] && tail[..k + 1][k] == tail[k];
  }

  /** The maps as the simulator keeps them. */
  class IdMap {
    var valueIds: map<nat, nat>
    var compMap: map<nat, map<string, nat>>
    var vectorIds: map<nat, nat>

    function Contents(): Maps
      reads this
    {
      Maps(valueIds, compMap, vectorIds)
    }

    constructor ()
      ensures Contents() == EMPTY
    {
      valueIds, compMap, vectorIds := map[], map[], map[];
    }

    method InsertOwn(vs: seq<nat>)
      modifies this
      ensures Contents() == DoAll(old(Contents()), Owns(vs))
    {
      ghost var was := Contents();
      for k := 0 to |vs|
        invariant Contents() == DoAll(was, Owns(vs)[..k])
      {
        assert Owns(vs)[..k + 1][..k] == Owns(vs)[..k];
        valueIds := Insert(valueIds, vs[k], vs[k]);
      }
      assert Owns(vs)[..|vs|] == Owns(vs);
    }

    method InsertOperands(vs: seq<nat>, to: seq<nat>)
      requires |vs| == |to|
      modifies this
      ensures Contents() == DoAll(old(Contents()), Aliased(vs, to))
    {
      ghost var was := Contents();
      for k := 0 to |vs|
        invariant Contents() == DoAll(was, Aliased(vs, to)[..k])
      {
        assert Aliased(vs, to)[..k + 1][..k] == Aliased(vs, to)[..k];
        valueIds := Insert(valueIds, vs[k], At(valueIds, to[k]));
      }
      assert Aliased(vs, to)[..|vs|] == Aliased(vs, to);
    }

    /** The results first stand for themselves and are then overwritten one by one. */
    method HandOut(results: seq<nat>, handed: seq<nat>, ghost before: seq<Step>)
      requires |results| == |handed|
      requires valueIds.Keys == Entered(before) && Ordered(before + Aliased(results, handed))
      modifies this
      ensures Contents() == DoAll(old(Contents()), Aliased(results, handed))
    {
      hide DoAll, Ordered, Defined, Entered, Owns, Aliased, HalfHanded;
      ghost var was, tail := Contents(), Aliased(results, handed);
      assert |tail| == |results|;
      InsertOwn(results);
      AllOwn(was, before, results, handed);
      for k := 0 to |results|
        invariant HalfHanded(valueIds, DoAll(was, tail[..k]).ids, results[k..])
        invariant Contents() == DoAll(was, tail[..k]).(ids := valueIds)
      {
        HandNext(valueIds, was, before, results, handed, k);
        valueIds := valueIds[results[k] := At(valueIds, handed[k])];
      }
      assert tail[..|results|] == tail;
      NoneLeft(valueIds, DoAll(was, tail).ids, results[|results|..]);
    }

    method BindFields(bound: map<string, nat>, fields: seq<Field>) returns (bound': map<string, nat>)
      ensures bound' == InsertFields(bound, fields, valueIds)
    {
      bound' := bound;
      for k := 0 to |fields|
        invariant InsertFields(bound', fields[k..], valueIds) == InsertFields(bound, fields, valueIds)
      {
        bound' := Insert(bound', fields[k].name, At(valueIds, fields[k].value));
      }
    }

    method WalkNode(n: Node, ghost before: seq<Step>)
      requires MatchedNode(n) && valueIds.Keys == Entered(before) && Ordered(before + NodeSteps(n))
      modifies this
      ensures Contents() == DoAll(old(Contents()), NodeSteps(n))
      decreases n
    {
      hide Ordered, Defined, Matched, DoAll;
      ghost var was := Contents();
      if |NodeSteps(n)| == 1 {
        DoOne(was, NodeSteps(n)[0]);
        assert NodeSteps(n) == [NodeSteps(n)[0]];
      }
      match n {
        case Plain(results) =>
          InsertOwn(results);
        case CreateComp(result, fields) =>
          var bound := BindFields(map[], fields);
          compMap := Insert(compMap, result, bound);
          valueIds := Insert(valueIds, result, result);
        case AddComp(handler, fields) =>
          var comp := At(valueIds, handler);
          var bound := BindFields(CompAt(compMap, comp), fields);
          compMap := compMap[comp := bound];
        case GetComp(result, handler, name) =>
          var comp := At(valueIds, handler);
          compMap := compMap[comp := CompAt(compMap, comp)];
          if name !in compMap[comp] {
            valueIds := Insert(valueIds, result, result);
          } else {
            valueIds := Insert(valueIds, result, At(valueIds, compMap[comp][name]));
          }
        case Splat(result, element) =>
          vectorIds := Insert(vectorIds, result, At(valueIds, element));
          valueIds := Insert(valueIds, result, result);
        case Extract(result, vector) =>
          valueIds := Insert(valueIds, result, At(vectorIds, At(valueIds, vector)));
        case Launch(done, results, args, operands, body, returned) =>
          WalkLaunch(n, before);
        case Loop(iv, results, iterArgs, inits, body, yielded) =>
          WalkLoop(n, before);
      }
    }

    method WalkNodes(nodes: seq<Node>, ghost before: seq<Step>)
      requires Matched(nodes) && valueIds.Keys == Entered(before) && Ordered(before + Steps(nodes))
      modifies this
      ensures Contents() == DoAll(old(Contents()), Steps(nodes))
      decreases nodes
    {
      hide DoAll, Ordered, Defined, NodeSteps, MatchedNode;
      ghost var was, seen := Contents(), before;
      for k := 0 to |nodes|
        invariant valueIds.Keys == Entered(seen)
        invariant seen + Steps(nodes[k..]) == before + Steps(nodes)
        invariant DoAll(Contents(), Steps(nodes[k..])) == DoAll(was, Steps(nodes))
      {
        NextNode(Contents(), seen, nodes, k);
        hide Steps;
        WalkNode(nodes[k], seen);
        seen := seen + NodeSteps(nodes[k]);
      }
      assert DoAll(Contents(), []) == Contents() by { NoSteps(Contents()); }
    }

    method WalkLaunch(n: Node, ghost before: seq<Step>)
      requires n.Launch? && MatchedNode(n) && valueIds.Keys == Entered(before) && Ordered(before + NodeSteps(n))
      modifies this
      ensures Contents() == DoAll(old(Contents()), NodeSteps(n))
      decreases n, 0
    {
      ghost var was := Contents();
      ghost var head, inner, done, tail :=
        Aliased(n.args, n.operands), Steps(n.body), [Own(n.done)], Aliased(n.results, n.returned);
      assert NodeSteps(n) == ((head + inner) + done) + tail;
      Pieces(was, before, head, inner, done, tail);
      InsertOperands(n.args, n.operands);
      WalkNodes(n.body, before + head);
      assert Owns([n.done]) == done;
      InsertOwn([n.done]);
      HandOut(n.results, n.returned, before + head + inner + done);
    }

    method WalkLoop(n: Node, ghost before: seq<Step>)
      requires n.Loop? && MatchedNode(n) && valueIds.Keys == Entered(before) && Ordered(before + NodeSteps(n))
      modifies this
      ensures Contents() == DoAll(old(Contents()), NodeSteps(n))
      decreases n, 0
    {
      ghost var was := Contents();
      ghost var head, inner, tail := [Unbound(n.iv)] + Owns(n.iterArgs), Steps(n.body), Aliased(n.results, n.yielded);
      assert NodeSteps(n) == ((head + inner) + []) + tail;
      Pieces(was, before, head, inner, [], tail);
      UnboundSkips(was, n.iv, Owns(n.iterArgs));
      InsertOwn(n.iterArgs);
      WalkNodes(n.body, before + head);
      assert before + head + inner + [] == before + head + inner;
      HandOut(n.results, n.yielded, before + head + inner);
    }

    /** The whole walk over a function. */
    method BuildIdMap(args: seq<nat>, nodes: seq<Node>)
      requires ValidProgram(args, nodes) && Contents() == EMPTY
      modifies this
      ensures Contents() == BuildMaps(Owns(args) + Steps(nodes))
      ensures forall k :: 0 <= k < |args| ==> StandsForItself(valueIds, args[k])
      ensures forall n :: Within(n, nodes) ==> Meaning(valueIds, nodes, n)
    {
      AliasesResolved(args, nodes);
      OrderedPrefix(Owns(args), Steps(nodes));
      InsertOwn(args);
      DoAllKeys(EMPTY, Owns(args));
      DoAllConcat(EMPTY, Owns(args), Steps(nodes));
      WalkNodes(nodes, Owns(args));
      hide *;
      ArgsResolved(args, nodes);
      forall n | Within(n, nodes) ensures Meaning(valueIds, nodes, n) {
        NodesResolved(args, nodes, n);
      }
    }
  }

  lemma ArgsResolved(args: seq<nat>, nodes: seq<Node>)
    requires ValidProgram(args, nodes)
    ensures forall k :: 0 <= k < |args| ==> StandsForItself(BuildMaps(Owns(args) + Steps(nodes)).ids, args[k])
  {
    var steps := Owns(args) + Steps(nodes);
    AliasesResolved(args, nodes);
    forall k | 0 <= k < |args| ensures StandsForItself(BuildMaps(steps).ids, args[k]) {
      assert steps[k] == Own(args[k]);
      var i := EquationAt(BuildMaps(steps).ids, steps, steps[k]);
      EntersMember(steps, k);
    }
  }

  lemma UnboundSkips(m: Maps, v: nat, steps: seq<Step>)
    ensures DoAll(m, [Unbound(v)] + steps) == DoAll(m, steps)
  {
    DoAllConcat(m, [Unbound(v)], steps);
    DoOne(m, Unbound(v));
  }

  lemma NoSteps(m: Maps)
    ensures DoAll(m, []) == m
  {
  }

  lemma NextNode(m: Maps, seen: seq<Step>, nodes: seq<Node>, k: nat)
    requires k < |nodes| && MatchedNode(nodes[k]) && Matched(nodes[k..]) && Matched(nodes[k + 1..])
    requires Ordered(seen + Steps(nodes[k..])) && m.ids.Keys == Entered(seen)
    ensures var steps, rest := NodeSteps(nodes[k]), Steps(nodes[k + 1..]);
            && Ordered(seen + steps)
            && seen + steps + rest == seen + Steps(nodes[k..])
            && DoAll(m, steps).ids.Keys == Entered(seen + steps)
            && DoAll(DoAll(m, steps), rest) == DoAll(m, Steps(nodes[k..]))
  {
    var steps, rest := NodeSteps(nodes[k]), Steps(nodes[k + 1..]);
    assert nodes[k..][1..] == nodes[k + 1..];
    assert Steps(nodes[k..]) == steps + rest;
    hide *;
    assert seen + (steps + rest) == (seen + steps) + rest;
    OrderedPrefix(seen + steps, rest);
    DoAllConcat(m, steps, rest);
    DoAllKeys(m, steps);
    EnteredConcat(seen, steps);
  }

  /** The parts of a region's steps, done one after the other. */
  lemma Pieces(m: Maps, before: seq<Step>, a: seq<Step>, b: seq<Step>, c: seq<Step>, d: seq<Step>)
    requires Ordered(before + (((a + b) + c) + d)) && m.ids.Keys == Entered(before)
    ensures Ordered(before + a + b) && Ordered(before + a + b + c + d)
    ensures DoAll(m, a).ids.Keys == Entered(before + a)
    ensures DoAll(DoAll(m, a), b).ids.Keys == Entered(before + a + b)
    ensures DoAll(DoAll(DoAll(m, a), b), c).ids.Keys == Entered(before + a + b + c)
    ensures DoAll(DoAll(DoAll(DoAll(m, a), b), c), d) == DoAll(m, ((a + b) + c) + d)
  {
    assert before + (((a + b) + c) + d) == before + a + b + c + d;
    OrderedPrefix(before + a + b + c, d);
    OrderedPrefix(before + a + b, c);
    DoAllKeys(m, a);
    EnteredConcat(before, a);
    DoAllKeys(DoAll(m, a), b);
    EnteredConcat(before + a, b);
    DoAllKeys(DoAll(DoAll(m, a), b), c);
    EnteredConcat(before + a + b, c);
    DoAllConcat(m, a, b);
    DoAllConcat(m, a + b, c);
    DoAllConcat(m, a + b + c, d);
  }
}
