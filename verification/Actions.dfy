/** The simulator seen as a transition system: six kinds of actions, and what they do to the
    operations a launcher has still to fetch.  Everything proved about all action sequences
    holds for the schedule the simulator follows, which Rounds.dfy shows to be one of them. */
module Actions {
  import opened Programs
  import opened Unrolling
  import opened Simulator

  datatype Action =
    | Fetch(launcher: nat)
    | Admit(launcher: nat)
    | Fire(position: nat)
    | Start(launcher: nat, end: Cycle)
    | Pass                               // time moves on
    | Retire(launcher: nat)

  predicate Enabled(p: Program, s: State, a: Action)
    requires Valid(p) && Typed(p, s)
  {
    match a
    case Fetch(i) => i < |s.tables| && CanFetch(p, s, i)
    case Admit(i) => i < |s.tables| && CanAdmit(p, s, i) && AtEnd(p, s.tables[i])
    case Fire(k) => k < |s.controlQueue| && !Blocked(p, s, s.controlQueue[k])
    case Start(i, _) => i < |s.tables| && CanStart(p, s, i)
    case Pass => true
    case Retire(i) => i < |s.tables| && CanRetire(s, i)
  }

  function Apply(p: Program, s: State, a: Action): (s': State)
    requires Valid(p) && Typed(p, s) && Enabled(p, s, a)
    ensures Typed(p, s')
  {
    match a
    case Fetch(i) => FetchTyped(p, s, i); FetchOp(p, s, i)
    case Admit(i) => AdmitTyped(p, s, i); AdmitOp(p, s, i)
    case Fire(k) => FireOp(p, s, k)
    case Start(i, end) => StartOp(p, s, i, end)
    case Pass => Advance(s)
    case Retire(i) => RetireOp(p, s, i)
  }

  /** Performing the actions one after the other, each when it is enabled, leads from s to t. */
  ghost predicate Reaches(p: Program, s: State, acts: seq<Action>, t: State)
    requires Valid(p) && Typed(p, s)
    decreases acts
  {
    if acts == [] then s == t
    else Enabled(p, s, acts[0]) && Reaches(p, Apply(p, s, acts[0]), acts[1..], t)
  }

  lemma {:induction false} ReachesTyped(p: Program, s: State, acts: seq<Action>, t: State)
    requires Valid(p) && Typed(p, s) && Reaches(p, s, acts, t)
    ensures Typed(p, t)
    decreases acts
  {
    if acts != [] {
      ReachesTyped(p, Apply(p, s, acts[0]), acts[1..], t);
    }
  }

  lemma ReachesCons(p: Program, s: State, a: Action, b: seq<Action>, u: State)
    requires Valid(p) && Typed(p, s) && Enabled(p, s, a) && Reaches(p, Apply(p, s, a), b, u)
    ensures Reaches(p, s, [a] + b, u)
  {
    assert ([a] + b)[1..] == b;
  }

  lemma {:induction false} ReachesConcat(p: Program, s: State, a: seq<Action>, t: State, b: seq<Action>, u: State)
    requires Valid(p) && Typed(p, s) && Reaches(p, s, a, t) && Typed(p, t) && Reaches(p, t, b, u)
    ensures Reaches(p, s, a + b, u)
    decreases a
  {
    hide *;
    FirstReaches(p, s, a, t);
    if a == [] {
      assert a + b == b;
    } else {
      var c := a[1..] + b;
      ReachesConcat(p, Apply(p, s, a[0]), a[1..], t, b, u);
      ReachesCons(p, s, a[0], c, u);
      assert a + b == [a[0]] + c;
    }
  }

  lemma FirstReaches(p: Program, s: State, acts: seq<Action>, t: State)
    requires Valid(p) && Typed(p, s) && Reaches(p, s, acts, t)
    ensures acts == [] ==> s == t
    ensures acts != [] ==>
              && Enabled(p, s, acts[0]) && Typed(p, Apply(p, s, acts[0]))
              && Reaches(p, Apply(p, s, acts[0]), acts[1..], t)
  {
  }

  // ----- What a launcher has still to fetch -----

  predicate InRange(p: Program, l: LauncherTable)
    requires Valid(p)
  {
    l.cursor.At? ==> l.cursor.block < |p.blocks| && l.cursor.next <= Length(p, l.cursor.block)
  }

  function RestOf(p: Program, l: LauncherTable, ex: Tally): seq<Ref>
    requires Valid(p) && InRange(p, l)
  {
    if l.cursor.At? then Rest(p, l.cursor.block, l.cursor.next, ex) else []
  }

  /** The loop counters stand at a multiple of the trip count, except for the loops the
      launcher is currently in. */
  predicate CounterOk(p: Program, l: LauncherTable, ex: Tally, c: nat)
    requires Valid(p) && InRange(p, l) && c < |p.blocks| && IsLoop(p, c)
  {
    (l.cursor.At? && OnPath(p, c, l.cursor.block)) || Count(ex, YieldOf(p, c)) % Trips(p, c) == 0
  }

  ghost predicate CountersOk(p: Program, s: State)
    requires Valid(p) && Typed(p, s)
  {
    forall c: nat :: c < |p.blocks| && IsLoop(p, c) ==>
      CounterOk(p, s.tables[RunsOn(p, Root(p, c))], s.exTimes, c)
  }

  lemma RestAtEnd(p: Program, i: nat, l: LauncherTable, ex: Tally)
    requires Valid(p) && TypedCursor(p, i, l)
    ensures AtEnd(p, l) ==> RestOf(p, l, ex) == []
    ensures RestOf(p, l, ex) == [] ==> AtEnd(p, l)
  {
    if l.cursor.At? && !AtEnd(p, l) {
      assert Expand(p, NextRef(l)) != [];
    }
  }

  lemma TakenFor(p: Program, i: nat, l: LauncherTable, ex: Tally)
    requires Valid(p) && HasNext(p, l) && TypedCursor(p, i, l) && OpAt(p, NextRef(l)).For?
    requires forall c: nat :: c < |p.blocks| && IsLoop(p, c) && RunsOn(p, Root(p, c)) == i ==> CounterOk(p, l, ex, c)
    ensures InRange(p, Taken(p, l, ex))
    ensures RestOf(p, l, ex) == [NextRef(l)] + RestOf(p, Taken(p, l, ex), ex)
  {
    var r := NextRef(l);
    var body := OpAt(p, r).body;
    assert ValidOp(p, r);
    assert Parent(p, body) == r;
    assert Root(p, body) == Root(p, r.block);
    assert CounterOk(p, l, ex, body);
    if OnPath(p, body, r.block) {
      PathBelow(p, body, r.block);
    }
    RestFor(p, r, ex);
  }

  lemma TakenYieldCursor(p: Program, i: nat, l: LauncherTable, ex: Tally)
    requires Valid(p) && HasNext(p, l) && TypedCursor(p, i, l) && OpAt(p, NextRef(l)).Yield?
    ensures var r := NextRef(l);
            && IsLoop(p, r.block) && r == YieldOf(p, r.block)
            && Taken(p, l, ex).cursor == YieldTarget(p, r.block, Count(ex, r) + 1)
  {
    assert ValidBlock(p, NextRef(l).block);
  }

  lemma TakenYield(p: Program, i: nat, l: LauncherTable, ex: Tally)
    requires Valid(p) && HasNext(p, l) && TypedCursor(p, i, l) && OpAt(p, NextRef(l)).Yield?
    ensures InRange(p, Taken(p, l, ex))
    ensures RestOf(p, l, ex) == [NextRef(l)] + RestOf(p, Taken(p, l, ex), Bump(ex, NextRef(l)))
  {
    hide Rest, Taken, TypedCursor, IsLoop;
    TakenYieldCursor(p, i, l, ex);
    RestYield(p, NextRef(l).block, ex);
  }

  /** Taking the next operation pops it off what is left to fetch. */
  lemma TakenRest(p: Program, i: nat, l: LauncherTable, ex: Tally)
    requires Valid(p) && HasNext(p, l) && TypedCursor(p, i, l)
    requires forall c: nat :: c < |p.blocks| && IsLoop(p, c) && RunsOn(p, Root(p, c)) == i ==> CounterOk(p, l, ex, c)
    ensures var r := NextRef(l);
            var ex' := if OpAt(p, r).Yield? then Bump(ex, r) else ex;
            InRange(p, Taken(p, l, ex)) &&
            RestOf(p, l, ex) == [r] + RestOf(p, Taken(p, l, ex), ex')
  {
    var r := NextRef(l);
    if OpAt(p, r).For? {
      TakenFor(p, i, l, ex);
    } else if OpAt(p, r).Yield? {
      TakenYield(p, i, l, ex);
    } else {
      RestPlain(p, r, ex);
    }
  }

  lemma TakenCounters(p: Program, i: nat, l: LauncherTable, ex: Tally, c: nat)
    requires Valid(p) && HasNext(p, l) && TypedCursor(p, i, l)
    requires c < |p.blocks| && IsLoop(p, c) && CounterOk(p, l, ex, c)
    ensures var r := NextRef(l);
            var ex' := if OpAt(p, r).Yield? then Bump(ex, r) else ex;
            TypedCursor(p, i, Taken(p, l, ex)) &&
            CounterOk(p, Taken(p, l, ex), ex', c)
  {
    TakenTyped(p, i, l, ex);
    var r := NextRef(l);
    var op := OpAt(p, r);
    assert ValidOp(p, r) && ValidBlock(p, r.block);
    if op.For? {
      assert Parent(p, op.body) == r;
    }
  }

  /** Other launchers do not notice: they are in other bodies. */
  lemma OtherRest(p: Program, i: nat, j: nat, l: LauncherTable, b: nat, ex: Tally)
    requires Valid(p) && TypedCursor(p, j, l) && i != j
    requires b < |p.blocks| && RunsOn(p, Root(p, b)) == i
    ensures RestOf(p, l, Bump(ex, YieldOf(p, b))) == RestOf(p, l, ex)
  {
    if l.cursor.At? {
      forall a: nat | a < |p.blocks| && OnPath(p, a, l.cursor.block) ensures YieldOf(p, b) != YieldOf(p, a) {
        PathBelow(p, a, l.cursor.block);
      }
      AfterFrame(p, l.cursor.block, ex, YieldOf(p, b));
    }
  }

  lemma FetchRest(p: Program, s: State, i: nat)
    requires Valid(p) && Typed(p, s) && CountersOk(p, s) && i < |s.tables| && CanFetch(p, s, i)
    ensures var s' := FetchOp(p, s, i);
            Typed(p, s') &&
            RestOf(p, s.tables[i], s.exTimes) == [NextRef(s.tables[i])] + RestOf(p, s'.tables[i], s'.exTimes)
  {
    FetchTyped(p, s, i);
    forall c: nat | c < |p.blocks| && IsLoop(p, c) && RunsOn(p, Root(p, c)) == i
      ensures CounterOk(p, s.tables[i], s.exTimes, c)
    {
    }
    TakenRest(p, i, s.tables[i], s.exTimes);
    var s' := FetchOp(p, s, i);
    assert s'.tables[i].cursor == Taken(p, s.tables[i], s.exTimes).cursor;
  }

  lemma FetchOtherCursor(p: Program, s: State, i: nat, j: nat)
    requires Valid(p) && Typed(p, s) && i < |s.tables| && CanFetch(p, s, i)
    requires j < |s.tables| && j != i
    ensures j < |FetchOp(p, s, i).tables|
    ensures FetchOp(p, s, i).tables[j].cursor == s.tables[j].cursor
    ensures FetchOp(p, s, i).tables[j].entry == s.tables[j].entry
  {
    assert ValidOp(p, NextRef(s.tables[i]));
  }

  lemma FetchOtherRest(p: Program, s: State, i: nat, j: nat)
    requires Valid(p) && Typed(p, s) && i < |s.tables| && CanFetch(p, s, i)
    requires j < |s.tables| && j != i
    ensures var s' := FetchOp(p, s, i);
            j < |s'.tables| && InRange(p, s'.tables[j]) &&
            RestOf(p, s'.tables[j], s'.exTimes) == RestOf(p, s.tables[j], s.exTimes)
  {
    var r := NextRef(s.tables[i]);
    FetchOtherCursor(p, s, i, j);
    if OpAt(p, r).Yield? {
      assert ValidBlock(p, r.block);
      assert r == YieldOf(p, r.block);
      OtherRest(p, i, j, s.tables[j], r.block, s.exTimes);
    }
  }

  lemma FetchCounters(p: Program, s: State, i: nat)
    requires Valid(p) && Typed(p, s) && CountersOk(p, s) && i < |s.tables| && CanFetch(p, s, i)
    ensures Typed(p, FetchOp(p, s, i)) && CountersOk(p, FetchOp(p, s, i))
  {
    FetchTyped(p, s, i);
    var s' := FetchOp(p, s, i);
    var r := NextRef(s.tables[i]);
    assert ValidBlock(p, r.block);
    forall c: nat | c < |p.blocks| && IsLoop(p, c)
      ensures CounterOk(p, s'.tables[RunsOn(p, Root(p, c))], s'.exTimes, c)
    {
      var j := RunsOn(p, Root(p, c));
      if j == i {
        TakenCounters(p, i, s.tables[i], s.exTimes, c);
      }
    }
  }

  /** A launch is admitted with its whole body ahead, an event of a DMA with nothing. */
  lemma AdmitRest(p: Program, s: State, i: nat)
    requires Valid(p) && Typed(p, s) && i < |s.tables| && CanAdmit(p, s, i) && AtEnd(p, s.tables[i])
    ensures var s' := AdmitOp(p, s, i);
            var op := OpAt(p, s.tables[i].queue[0]);
            Typed(p, s') &&
            RestOf(p, s.tables[i], s.exTimes) == [] &&
            (op.Launch? ==> op.body < |p.blocks|) &&
            RestOf(p, s'.tables[i], s'.exTimes) == if op.Launch? then Unroll(p, op.body) else []
  {
    AdmitTyped(p, s, i);
    RestAtEnd(p, i, s.tables[i], s.exTimes);
    var r := s.tables[i].queue[0];
    assert ValidOp(p, r);
    if OpAt(p, r).Launch? {
      assert Parent(p, OpAt(p, r).body) == r;
    }
  }

  /** Admission tests only that the launcher is idle.  It keeps what was still to be fetched,
      with the new body behind it, exactly when the launcher is at the end of its body or the
      event is no launch: a launcher that is idle because a full queue broke off its fetch
      does not stall, it loses the rest of its body to the next launch. */
  lemma AdmitKeepsRest(p: Program, s: State, i: nat)
    requires Valid(p) && Typed(p, s) && CountersOk(p, s)
    requires i < |s.tables| && CanAdmit(p, s, i)
    ensures var s' := AdmitOp(p, s, i);
            var op := OpAt(p, s.tables[i].queue[0]);
            Typed(p, s') &&
            (op.Launch? ==> op.body < |p.blocks|) &&
            (RestOf(p, s'.tables[i], s'.exTimes)
             == RestOf(p, s.tables[i], s.exTimes) + (if op.Launch? then Unroll(p, op.body) else [])
             <==> AtEnd(p, s.tables[i]) || op.MemCopy?)
  {
    AdmitTyped(p, s, i);
    RestAtEnd(p, i, s.tables[i], s.exTimes);
    var r := s.tables[i].queue[0];
    assert ValidOp(p, r);
    if OpAt(p, r).Launch? {
      assert Parent(p, OpAt(p, r).body) == r;
      assert RestOf(p, AdmitOp(p, s, i).tables[i], s.exTimes) == Unroll(p, OpAt(p, r).body);
    }
  }

  lemma AdmitCounters(p: Program, s: State, i: nat)
    requires Valid(p) && Typed(p, s) && CountersOk(p, s)
    requires i < |s.tables| && CanAdmit(p, s, i) && AtEnd(p, s.tables[i])
    ensures Typed(p, AdmitOp(p, s, i)) && CountersOk(p, AdmitOp(p, s, i))
  {
    AdmitTyped(p, s, i);
    var s' := AdmitOp(p, s, i);
    forall c: nat | c < |p.blocks| && IsLoop(p, c)
      ensures CounterOk(p, s'.tables[RunsOn(p, Root(p, c))], s'.exTimes, c)
    {
    }
  }
}
