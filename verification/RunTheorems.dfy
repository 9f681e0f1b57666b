/** What holds of every run of the simulator. */
module RunTheorems {
  import opened Arithmetic
  import opened Programs
  import opened Unrolling
  import opened Simulator
  import opened Actions
  import opened Invariants
  import opened Bounds
  import opened Effects
  import opened ControlFiring
  import opened Timing
  import opened Rounds

  /** Some sequence of enabled actions leads from the initial state to t. */
  ghost predicate Reachable(p: Program, t: State)
    requires Valid(p)
  {
    Typed(p, t) && exists acts :: Reaches(p, Init(p), acts, t)
  }

  lemma ReachableInv(p: Program, t: State)
    requires Valid(p) && Reachable(p, t)
    ensures Inv(p, t)
  {
    var acts :| Reaches(p, Init(p), acts, t);
    InvInit(p);
    InvReaches(p, Init(p), acts, t);
  }

  /** Whatever the timing models answer, the simulator only visits reachable states, as long
      as it never cuts off a body ... */
  lemma SimulateReachable(p: Program, answers: seq<seq<Answer>>)
    requires Valid(p) && TypedAnswers(p, answers) && NeverCutOff(p, Init(p), answers)
    ensures Reachable(p, Simulate(p, Init(p), answers))
  {
    InvInit(p);
    var acts := SimulateReaches(p, Init(p), answers);
  }

  /** ... which a program that passes the static load check never does. */
  lemma FittingReachable(p: Program, answers: seq<seq<Answer>>)
    requires Valid(p) && TypedAnswers(p, answers) && FitsQueues(p)
    ensures NeverCutOff(p, Init(p), answers)
    ensures Reachable(p, Simulate(p, Init(p), answers)) && Settled(p, Simulate(p, Init(p), answers))
  {
    InvInit(p);
    FittingNeverCutOff(p, Init(p), answers);
    SimulateReachable(p, answers);
  }

  // ----- Tokens -----

  /** An operation whose block runs n times per run of the block producing a signal it waits
      for is never started more than n times per production, in any reachable state. */
  lemma TokenSafety(p: Program, t: State, o: Ref, g: Ref, n: nat)
    requires Valid(p) && Reachable(p, t)
    requires IsRef(p, o) && IsRef(p, g) && WaitsFor(p, o, g)
    requires BlockExs(p, o.block) == n * BlockExs(p, g.block)
    ensures Count(t.opMap, o) <= n * Count(t.valueMap, g)
  {
    ReachableInv(p, t);
    assert TokensOk(p, t, o) && TokenOk(p, t, o, g);
    PerProduction(Count(t.opMap, o), n, Count(t.valueMap, g), BlockExs(p, g.block));
  }

  lemma PerProduction(used: nat, n: nat, made: nat, ex: nat)
    requires used * ex < (n * ex) * made + ex
    ensures used <= n * made
  {
    var spare := n * made + 1 - used;
    assert (n * ex) * made == (n * made) * ex;
    assert spare * ex > 0;
  }

  /** The test of the operands, without its cross products: start number k (from 0) has to wait
      for a signal exactly until production number k / n + 1. */
  lemma ReadyPerProduction(p: Program, s: State, o: Ref, g: Ref, n: nat)
    requires Valid(p) && IsRef(p, o) && IsRef(p, g) && n > 0
    requires BlockExs(p, o.block) == n * BlockExs(p, g.block)
    ensures !Lacks(p, s, o, g) <==> Count(s.opMap, o) / n + 1 <= Count(s.valueMap, g)
  {
    var k, made, ex := Count(s.opMap, o), Count(s.valueMap, g), BlockExs(p, g.block);
    hide *;
    assert Lacks(p, s, o, g) <==> k * ex >= (n * ex) * made by { WaitingByCounts(p, s, o, g); }
    MulSwaps(n, ex, made);
    MulOrder(ex, k, n * made);
    QuotientBelow(k, n, made);
  }

  /** A signal that was never produced counts as produced zero times. */
  lemma WaitingByCounts(p: Program, s: State, o: Ref, g: Ref)
    requires Valid(p) && IsRef(p, o) && IsRef(p, g)
    ensures Lacks(p, s, o, g)
       <==> Count(s.opMap, o) * BlockExs(p, g.block) >= BlockExs(p, o.block) * Count(s.valueMap, g)
  {
  }

  // ----- Static multiplicity equals dynamic count -----

  /** If the simulation stops with all queues empty, every event and control operation was
      started, and its signal produced, exactly as often as the static table says. */
  lemma FinalCounts(p: Program, answers: seq<seq<Answer>>, o: Ref)
    requires Valid(p) && TypedAnswers(p, answers) && NeverCutOff(p, Init(p), answers)
    requires var t := Simulate(p, Init(p), answers);
             AllIdle(t) && t.controlQueue == [] && forall i: nat :: i < |t.tables| ==> t.tables[i].queue == []
    requires IsRef(p, o) && OpAt(p, o).IsAsync()
    ensures var t := Simulate(p, Init(p), answers);
            Count(t.opMap, o) == Count(t.valueMap, o) == BlockExs(p, o.block)
  {
    var t := Simulate(p, Init(p), answers);
    SimulateReachable(p, answers);
    ReachableInv(p, t);
    SimulationStops(p, Init(p), answers);
    StuckDisables(p, t);
    ExhaustedSettled(p, t);
    hide Simulate, Reachable, Stuck, Exhausted, Inv;
    forall i: nat | i < |t.tables| ensures t.tables[i].entry.Idle? && AtEnd(p, t.tables[i]) {
      assert SettledAt(p, t, i);
    }
    SignalsDrained(p, t, o);
  }

  lemma {:induction false} AdmitOnceIdle(p: Program, s: State, i: nat)
    requires Valid(p) && Typed(p, s) && i <= |s.tables| && !Running(AdmitOnce(p, s, i))
    ensures AdmitOnce(p, s, i) == s
    ensures forall j: nat :: i <= j < |s.tables| ==> !CanAdmit(p, s, j)
    decreases |s.tables| - i
  {
    if i < |s.tables| {
      if CanAdmit(p, s, i) {
        StaysBusy(p, CheckEventQueue(p, s, i), i + 1, i);
      } else {
        AdmitOnceIdle(p, s, i + 1);
      }
    }
  }

  lemma {:induction false} StaysBusy(p: Program, s: State, i: nat, j: nat)
    requires Valid(p) && Typed(p, s) && i <= |s.tables| && j < |s.tables| && s.tables[j].entry.Busy?
    ensures Running(AdmitOnce(p, s, i))
    decreases |s.tables| - i
  {
    if i < |s.tables| {
      StaysBusy(p, CheckEventQueue(p, s, i), i + 1, j);
    }
  }

  /** Launcher i has no block, is through with it, or comes to an event for a full queue. */
  predicate NothingToFetch(p: Program, t: State, i: nat)
    requires Valid(p) && Typed(p, t) && i < |t.tables|
  {
    var c := t.tables[i].cursor;
    c.At? && c.next < |p.blocks[c.block].ops| ==>
      var op := p.blocks[c.block].ops[c.next];
      && (op.Launch? || op.MemCopy?) && op.device < |t.tables|
      && |t.tables[op.device].queue| == EVENT_QUEUE_SIZE
  }

  /** All launchers are idle, none has anything to fetch, and all that is queued lacks a signal. */
  ghost predicate Stuck(p: Program, t: State)
    requires Valid(p) && Typed(p, t)
  {
    && AllIdle(t)
    && (forall i: nat :: i < |t.tables| ==> NothingToFetch(p, t, i))
    && (forall r :: r in t.controlQueue ==> Waits(p, t, r))
    && (forall i: nat :: i < |t.tables| && t.tables[i].queue != [] ==> Waits(p, t, t.tables[i].queue[0]))
  }

  lemma StuckDisables(p: Program, t: State)
    requires Valid(p) && Typed(p, t)
    ensures Stuck(p, t) <==>
      && AllIdle(t) && Exhausted(p, t) && Quiescent(p, t)
      && forall i: nat :: i < |t.tables| ==> !CanAdmit(p, t, i)
  {
    forall r | r in t.controlQueue ensures Blocked(p, t, r) <==> Waits(p, t, r) {
      BlockedWaits(p, t, r);
    }
    if AllIdle(t) {
      forall i: nat | i < |t.tables|
        ensures CanFetch(p, t, i) <==> !NothingToFetch(p, t, i)
        ensures CanAdmit(p, t, i) <==> t.tables[i].queue != [] && !Waits(p, t, t.tables[i].queue[0])
      {
        StuckAt(p, t, i);
      }
    }
  }

  lemma StuckAt(p: Program, t: State, i: nat)
    requires Valid(p) && Typed(p, t) && i < |t.tables| && t.tables[i].entry.Idle?
    ensures CanFetch(p, t, i) <==> !NothingToFetch(p, t, i)
    ensures CanAdmit(p, t, i) <==> t.tables[i].queue != [] && !Waits(p, t, t.tables[i].queue[0])
  {
    if HasNext(p, t.tables[i]) {
      assert ValidOp(p, NextRef(t.tables[i]));
    }
    if t.tables[i].queue != [] {
      BlockedWaits(p, t, t.tables[i].queue[0]);
    }
  }

  /** The simulation stops only when it is stuck ... */
  lemma StopsOnlyWhenStuck(p: Program, s: State)
    requires Valid(p) && Typed(p, s)
    requires AllIdle(Prepare(p, s))
    ensures Stuck(p, Prepare(p, s))
  {
    var fetched := FetchAll(p, s, 0);
    var fired := Fired(p, s);
    FiredExhausted(p, s);
    AdmitAllIsOnePass(p, fetched);
    AdmitOnceIdle(p, fired, 0);
    var ks := CheckControlFires(p, fetched, 0);
    StuckDisables(p, Prepare(p, s));
  }

  lemma {:induction false} SimulationStops(p: Program, s: State, answers: seq<seq<Answer>>)
    requires Valid(p) && Typed(p, s) && TypedAnswers(p, answers) && AllIdle(Simulate(p, s, answers))
    ensures Stuck(p, Simulate(p, s, answers))
    decreases answers
  {
    var ready := Prepare(p, s);
    if Running(ready) && answers != [] {
      SimulationStops(p, Execute(p, ready, answers[0]), answers[1..]);
    } else {
      StopsOnlyWhenStuck(p, s);
    }
  }

  /** ... and then nothing can ever happen again but time passing, which unblocks nothing. */
  lemma StuckForever(p: Program, t: State, a: Action)
    requires Valid(p) && Typed(p, t) && Stuck(p, t) && Enabled(p, t, a)
    ensures a.Pass? && Stuck(p, Apply(p, t, a))
  {
    StuckDisables(p, t);
    StuckPass(p, t);
  }

  lemma StuckPass(p: Program, t: State)
    requires Valid(p) && Typed(p, t) && Stuck(p, t)
    ensures Stuck(p, Advance(t))
  {
    var t' := Advance(t);
    StuckDisables(p, t);
    forall o | IsRef(p, o) ensures Blocked(p, t', o) == Blocked(p, t, o) {
      BlockedByCounts(p, t, t', o);
    }
    forall i: nat | i < |t'.tables| ensures !CanFetch(p, t', i) && !CanAdmit(p, t', i) {
      assert !CanFetch(p, t, i) && !CanAdmit(p, t, i);
    }
    StuckDisables(p, t');
  }

  // ----- Time -----

  /** Along a run in time, an operation is retired at exactly the end time booked for it. */
  lemma RetiresOnTime(p: Program, acts: seq<Action>, t: State, i: nat)
    requires Valid(p) && Reaches(p, Init(p), acts, t) && InTime(p, Init(p), acts)
    requires i < |t.tables| && CanRetire(t, i)
    ensures t.tables[i].entry.start <= t.tables[i].entry.end == t.time
  {
    TimeReaches(p, Init(p), acts, t);
    assert EntryOnTime(t.tables[i].entry, t.time);
  }

  // ----- Launcher discipline -----

  /** The operations launcher i fetches along a run, in order. */
  ghost function FetchedBy(p: Program, s: State, acts: seq<Action>, t: State, i: nat): seq<Ref>
    requires Valid(p) && Typed(p, s) && Reaches(p, s, acts, t) && i < p.launchers
    decreases acts
  {
    if acts == [] then []
    else (if acts[0] == Fetch(i) then [NextRef(s.tables[i])] else [])
         + FetchedBy(p, Apply(p, s, acts[0]), acts[1..], t, i)
  }

  /** The events launcher i admits along a run, in order. */
  ghost function AdmittedBy(p: Program, s: State, acts: seq<Action>, t: State, i: nat): seq<Ref>
    requires Valid(p) && Typed(p, s) && Reaches(p, s, acts, t) && i < p.launchers
    decreases acts
  {
    if acts == [] then []
    else (if acts[0] == Admit(i) then [s.tables[i].queue[0]] else [])
         + AdmittedBy(p, Apply(p, s, acts[0]), acts[1..], t, i)
  }

  /** The events sent to launcher i along a run, in order. */
  ghost function SentTo(p: Program, s: State, acts: seq<Action>, t: State, i: nat): seq<Ref>
    requires Valid(p) && Typed(p, s) && Reaches(p, s, acts, t) && i < p.launchers
    decreases acts
  {
    if acts == [] then []
    else SentBy(p, s, acts[0], i) + SentTo(p, Apply(p, s, acts[0]), acts[1..], t, i)
  }

  ghost function SentBy(p: Program, s: State, a: Action, i: nat): seq<Ref>
    requires Valid(p) && Typed(p, s) && Enabled(p, s, a)
  {
    if a.Fetch? && OpAt(p, NextRef(s.tables[a.launcher])).IsEvent()
       && OpAt(p, NextRef(s.tables[a.launcher])).device == i
    then [NextRef(s.tables[a.launcher])] else []
  }

  /** The unrolled bodies of the launches among some events. */
  function Bodies(p: Program, events: seq<Ref>): seq<Ref>
    requires Valid(p)
  {
    if events == [] then []
    else
      var r := events[0];
      (if IsRef(p, r) && OpAt(p, r).Launch? then
         assert ValidOp(p, r);
         Unroll(p, OpAt(p, r).body)
       else [])
      + Bodies(p, events[1..])
  }

  lemma QueueStep(p: Program, s: State, a: Action, i: nat)
    requires Valid(p) && Typed(p, s) && Enabled(p, s, a) && i < p.launchers
    ensures s.tables[i].queue + SentBy(p, s, a, i)
         == (if a == Admit(i) then [s.tables[i].queue[0]] else []) + Apply(p, s, a).tables[i].queue
  {
    if a.Fetch? {
      assert ValidOp(p, NextRef(s.tables[a.launcher]));
    }
  }

  /** Events are admitted in the order in which they were sent. */
  lemma {:induction false} FirstInFirstOut(p: Program, s: State, acts: seq<Action>, t: State, i: nat)
    requires Valid(p) && Typed(p, s) && Reaches(p, s, acts, t) && i < p.launchers
    ensures Typed(p, t)
    ensures s.tables[i].queue + SentTo(p, s, acts, t, i) == AdmittedBy(p, s, acts, t, i) + t.tables[i].queue
    decreases acts
  {
    if acts != [] {
      var s' := Apply(p, s, acts[0]);
      QueueStep(p, s, acts[0], i);
      FirstInFirstOut(p, s', acts[1..], t, i);
      Reassociate(s.tables[i].queue, SentBy(p, s, acts[0], i), SentTo(p, s', acts[1..], t, i),
                  if acts[0] == Admit(i) then [s.tables[i].queue[0]] else [], s'.tables[i].queue,
                  AdmittedBy(p, s', acts[1..], t, i), t.tables[i].queue);
    }
  }

  lemma Reassociate<T>(q: seq<T>, a: seq<T>, a': seq<T>, b: seq<T>, q': seq<T>, b': seq<T>, r: seq<T>)
    requires q + a == b + q' && q' + a' == b' + r
    ensures q + (a + a') == (b + b') + r
  {
    assert q + (a + a') == (q + a) + a';
    assert (b + q') + a' == b + (q' + a');
    assert b + (b' + r) == (b + b') + r;
  }

  lemma RestStep(p: Program, s: State, a: Action, i: nat)
    requires Valid(p) && Inv(p, s) && Enabled(p, s, a) && i < p.launchers
    ensures RestOf(p, s.tables[i], s.exTimes)
            + Bodies(p, if a == Admit(i) then [s.tables[i].queue[0]] else [])
         == (if a == Fetch(i) then [NextRef(s.tables[i])] else [])
            + RestOf(p, Apply(p, s, a).tables[i], Apply(p, s, a).exTimes)
  {
    if a == Fetch(i) {
      FetchRest(p, s, i);
    } else if a == Admit(i) {
      AdmitRest(p, s, i);
      BodyOfOne(p, s.tables[i].queue[0]);
    } else {
      RestUnmoved(p, s, a, i);
    }
  }

  lemma BodyOfOne(p: Program, r: Ref)
    requires Valid(p) && IsRef(p, r) && OpAt(p, r).IsEvent()
    ensures OpAt(p, r).Launch? ==> OpAt(p, r).body < |p.blocks|
    ensures Bodies(p, [r]) == if OpAt(p, r).Launch? then Unroll(p, OpAt(p, r).body) else []
  {
    assert ValidOp(p, r);
    assert [r][1..] == [];
  }

  lemma RestUnmoved(p: Program, s: State, a: Action, i: nat)
    requires Valid(p) && Inv(p, s) && Enabled(p, s, a) && i < p.launchers
    requires a != Fetch(i) && a != Admit(i)
    ensures RestOf(p, Apply(p, s, a).tables[i], Apply(p, s, a).exTimes) == RestOf(p, s.tables[i], s.exTimes)
  {
    if a.Fetch? {
      FetchOtherRest(p, s, a.launcher, i);
    } else {
      assert Apply(p, s, a).tables[i].cursor == s.tables[i].cursor;
    }
  }

  lemma BodiesCons(p: Program, r: Ref, rest: seq<Ref>)
    requires Valid(p)
    ensures Bodies(p, [r] + rest) == Bodies(p, [r]) + Bodies(p, rest)
  {
    assert ([r] + rest)[1..] == rest && [r][1..] == [];
    assert Bodies(p, []) == [];
  }

  lemma {:induction false} BodiesConcat(p: Program, a: seq<Ref>, b: seq<Ref>)
    requires Valid(p)
    ensures Bodies(p, a + b) == Bodies(p, a) + Bodies(p, b)
  {
    if a == [] {
      assert a + b == b && Bodies(p, a) == [];
    } else {
      hide Bodies, Valid;
      var rest := a[1..];
      BodiesConcat(p, rest, b);
      BodiesCons(p, a[0], rest);
      BodiesCons(p, a[0], rest + b);
      assert a == [a[0]] + rest && a + b == [a[0]] + (rest + b);
    }
  }

  /** The loop machine refines unrolling, over whole runs: what a launcher fetches through its
      cursor and the never-reset loop counters is, operation by operation, the unrolled bodies
      of the launches it admits, one body to its end before the next. */
  lemma {:induction false} FetchesUnrolledBodies(p: Program, s: State, acts: seq<Action>, t: State, i: nat)
    requires Valid(p) && Inv(p, s) && Reaches(p, s, acts, t) && i < p.launchers
    ensures Typed(p, t)
    ensures RestOf(p, s.tables[i], s.exTimes) + Bodies(p, AdmittedBy(p, s, acts, t, i))
         == FetchedBy(p, s, acts, t, i) + RestOf(p, t.tables[i], t.exTimes)
    decreases acts
  {
    if acts != [] {
      var a := acts[0];
      var s' := Apply(p, s, a);
      InvApply(p, s, a);
      RestStep(p, s, a, i);
      FetchesUnrolledBodies(p, s', acts[1..], t, i);
      var now := if a == Admit(i) then [s.tables[i].queue[0]] else [];
      var later := AdmittedBy(p, s', acts[1..], t, i);
      BodiesConcat(p, now, later);
      Reassociate(RestOf(p, s.tables[i], s.exTimes), Bodies(p, now), Bodies(p, later),
                  if a == Fetch(i) then [NextRef(s.tables[i])] else [], RestOf(p, s'.tables[i], s'.exTimes),
                  FetchedBy(p, s', acts[1..], t, i), RestOf(p, t.tables[i], t.exTimes));
    }
  }

  /** From the initial state, the events a launcher has admitted are the first of those sent
      to it, in the order they were sent. */
  lemma WholeRunInOrder(p: Program, acts: seq<Action>, t: State, i: nat)
    requires Valid(p) && Reaches(p, Init(p), acts, t) && i < p.launchers
    ensures Typed(p, t)
    ensures SentTo(p, Init(p), acts, t, i) == AdmittedBy(p, Init(p), acts, t, i) + t.tables[i].queue
  {
    InitRest(p, i);
    FirstInFirstOut(p, Init(p), acts, t, i);
  }

  /** The host unrolls the function body once, and every other launcher the bodies of the
      launches it has admitted. */
  lemma WholeRunUnrolled(p: Program, acts: seq<Action>, t: State, i: nat)
    requires Valid(p) && Reaches(p, Init(p), acts, t) && i < p.launchers
    ensures Typed(p, t)
    ensures FetchedBy(p, Init(p), acts, t, i) + RestOf(p, t.tables[i], t.exTimes)
         == (if i == 0 then Unroll(p, 0) else []) + Bodies(p, AdmittedBy(p, Init(p), acts, t, i))
  {
    InvInit(p);
    InitRest(p, i);
    FetchesUnrolledBodies(p, Init(p), acts, t, i);
  }

  lemma InitRest(p: Program, i: nat)
    requires Valid(p) && i < p.launchers
    ensures Init(p).tables[i].queue == []
    ensures RestOf(p, Init(p).tables[i], Init(p).exTimes) == if i == 0 then Unroll(p, 0) else []
  {
    assert RestOf(p, LauncherTable(Idle, At(0, 0), []), map[]) == Unroll(p, 0);
  }

  // ----- Busy intervals -----

  datatype Interval = Interval(op: Ref, start: nat, end: nat)

  ghost function BusyIntervals(p: Program, s: State, acts: seq<Action>, t: State, i: nat): seq<Interval>
    requires Valid(p) && Typed(p, s) && Reaches(p, s, acts, t) && i < p.launchers
    decreases acts
  {
    if acts == [] then []
    else (if acts[0].Start? && acts[0].launcher == i
          then [Interval(s.tables[i].entry.op, s.time, acts[0].end)] else [])
         + BusyIntervals(p, Apply(p, s, acts[0]), acts[1..], t, i)
  }

  /** The intervals follow one another, none before `from`. */
  ghost predicate InOrder(ivs: seq<Interval>, from: nat) {
    ivs != [] ==> from <= ivs[0].start <= ivs[0].end && InOrder(ivs[1..], ivs[0].end)
  }

  function FreeAt(s: State, i: nat): nat
    requires i < |s.tables|
  {
    if s.tables[i].entry.IsStarted() then s.tables[i].entry.end else s.time
  }

  lemma {:induction false} InOrderFrom(ivs: seq<Interval>, from: nat, from': nat)
    requires InOrder(ivs, from') && from <= from'
    ensures InOrder(ivs, from)
  {
  }

  /** Along a run in time, a launcher's busy intervals are disjoint and increasing. */
  lemma {:induction false} BusyInOrder(p: Program, s: State, acts: seq<Action>, t: State, i: nat)
    requires Valid(p) && Typed(p, s) && TimeOk(s) && i < p.launchers
    requires Reaches(p, s, acts, t) && InTime(p, s, acts)
    ensures InOrder(BusyIntervals(p, s, acts, t, i), FreeAt(s, i))
    decreases acts
  {
    if acts != [] {
      var a := acts[0];
      var s' := Apply(p, s, a);
      TimeApply(p, s, a);
      BusyInOrder(p, s', acts[1..], t, i);
      var rest := BusyIntervals(p, s', acts[1..], t, i);
      if a.Start? && a.launcher == i {
        assert FreeAt(s', i) == a.end;
        var now := [Interval(s.tables[i].entry.op, s.time, a.end)];
        assert (now + rest)[1..] == rest;
      } else {
        FreeLater(p, s, a, i);
        InOrderFrom(rest, FreeAt(s, i), FreeAt(s', i));
        assert [] + rest == rest;
      }
    }
  }

  lemma FreeLater(p: Program, s: State, a: Action, i: nat)
    requires Valid(p) && Typed(p, s) && TimeOk(s) && Enabled(p, s, a) && Prompt(s, a) && i < p.launchers
    requires !(a.Start? && a.launcher == i)
    ensures FreeAt(s, i) <= FreeAt(Apply(p, s, a), i)
  {
    assert EntryOnTime(s.tables[i].entry, s.time);
    match a
    case Fetch(j) =>
      if i != j { FetchOtherCursor(p, s, j, i); }
    case Pass => TimeApply(p, s, a);
    case _ =>
  }
}
