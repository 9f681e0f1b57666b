/** What every action keeps: conservation of operations, of signals and of tokens. */
module Invariants {
  import opened Arithmetic
  import opened Programs
  import opened Unrolling
  import opened Simulator
  import opened Actions

  /** Operations whose starts the simulator counts. */
  predicate Tracked(op: Op) {
    op.IsAsync() || op.Await?
  }

  function Bit(b: bool): nat {
    if b then 1 else 0
  }

  predicate Unstarted(l: LauncherTable, o: Ref) {
    l.entry.Busy? && l.entry.op == o && !l.entry.IsStarted()
  }

  predicate InFlight(l: LauncherTable, o: Ref) {
    l.entry.Busy? && l.entry.op == o && l.entry.IsStarted()
  }

  // ----- Conservation of operations -----

  /** Fetched, but not started yet. */
  function Pending(p: Program, s: State, o: Ref): nat
    requires Valid(p) && Typed(p, s) && IsRef(p, o)
  {
    var l := s.tables[Home(p, o)];
    Occurs(s.controlQueue, o) + Occurs(l.queue, o) + Bit(Unstarted(l, o))
  }

  function Fetched(p: Program, s: State, o: Ref): nat
    requires Valid(p) && Typed(p, s) && IsRef(p, o)
  {
    Count(s.opMap, o) + Pending(p, s, o)
  }

  /** How often root `b` was begun: admitted launches, and the one run of the function body. */
  function Begun(p: Program, s: State, b: nat): nat
    requires Valid(p) && Typed(p, s) && b < |p.blocks| && !IsLoop(p, b)
  {
    if b == 0 then 1
    else
      var o := Parent(p, b);
      Count(s.opMap, o) + Bit(Unstarted(s.tables[Home(p, o)], o))
  }

  function Ahead(p: Program, s: State, o: Ref): nat
    requires Valid(p) && Typed(p, s) && IsRef(p, o)
  {
    Occurs(RestOf(p, s.tables[RunsOn(p, Root(p, o.block))], s.exTimes), o)
  }

  /** Every run of a root fetches an operation as often as its loops say: what was fetched
      and what is still ahead add up to all runs begun. */
  predicate CountOk(p: Program, s: State, o: Ref)
    requires Valid(p) && Typed(p, s) && IsRef(p, o)
  {
    Fetched(p, s, o) + Ahead(p, s, o) == Begun(p, s, Root(p, o.block)) * LoopFactor(p, o.block)
  }

  lemma OccursSnoc(q: seq<Ref>, r: Ref, o: Ref)
    ensures Occurs(q + [r], o) == Occurs(q, o) + Bit(o == r)
    ensures Occurs([r] + q, o) == Occurs(q, o) + Bit(o == r)
  {
  }

  lemma OccursHead(q: seq<Ref>, o: Ref)
    requires q != []
    ensures Occurs(q, o) == Occurs(q[1..], o) + Bit(o == q[0])
  {
    assert q == [q[0]] + q[1..];
  }

  lemma OccursRemove(q: seq<Ref>, k: nat, o: Ref)
    requires k < |q|
    ensures Occurs(q, o) == Occurs(q[..k] + q[k + 1..], o) + Bit(o == q[k])
  {
    assert q == q[..k] + [q[k]] + q[k + 1..];
  }

  lemma QueueFetch(p: Program, s: State, i: nat, o: Ref)
    requires Valid(p) && Typed(p, s) && i < |s.tables| && CanFetch(p, s, i) && IsRef(p, o)
    ensures var s' := FetchOp(p, s, i);
            var r := NextRef(s.tables[i]);
            && |s'.tables| == |s.tables|
            && Occurs(s'.controlQueue, o) == Occurs(s.controlQueue, o) + Bit(OpAt(p, r).Control? && o == r)
            && Occurs(s'.tables[Home(p, o)].queue, o)
               == Occurs(s.tables[Home(p, o)].queue, o) + Bit(OpAt(p, r).IsEvent() && o == r)
  {
    var r := NextRef(s.tables[i]);
    assert ValidOp(p, r);
    OccursSnoc(s.controlQueue, r, o);
    OccursSnoc(s.tables[Home(p, o)].queue, r, o);
  }

  lemma EntryFetch(p: Program, s: State, i: nat, o: Ref)
    requires Valid(p) && Typed(p, s) && i < |s.tables| && CanFetch(p, s, i)
    requires IsRef(p, o) && Tracked(OpAt(p, o))
    ensures var s' := FetchOp(p, s, i);
            var r := NextRef(s.tables[i]);
            && |s'.tables| == |s.tables|
            && Bit(Unstarted(s'.tables[Home(p, o)], o))
               == Bit(Unstarted(s.tables[Home(p, o)], o)) + Bit(OpAt(p, r).Await? && o == r)
  {
    var r := NextRef(s.tables[i]);
    assert ValidOp(p, r);
    if Home(p, o) != i {
      FetchOtherCursor(p, s, i, Home(p, o));
    }
  }

  lemma PendingFetch(p: Program, s: State, i: nat, o: Ref)
    requires Valid(p) && Typed(p, s) && i < |s.tables| && CanFetch(p, s, i)
    requires IsRef(p, o) && Tracked(OpAt(p, o))
    ensures var s' := FetchOp(p, s, i);
            Typed(p, s') && Pending(p, s', o) == Pending(p, s, o) + Bit(o == NextRef(s.tables[i]))
  {
    FetchTyped(p, s, i);
    QueueFetch(p, s, i, o);
    EntryFetch(p, s, i, o);
  }

  lemma BegunFetch(p: Program, s: State, i: nat, b: nat)
    requires Valid(p) && Typed(p, s) && i < |s.tables| && CanFetch(p, s, i)
    requires b < |p.blocks| && !IsLoop(p, b)
    ensures Typed(p, FetchOp(p, s, i)) && Begun(p, FetchOp(p, s, i), b) == Begun(p, s, b)
  {
    FetchTyped(p, s, i);
    assert ValidOp(p, NextRef(s.tables[i]));
  }

  lemma CountFetch(p: Program, s: State, i: nat, o: Ref)
    requires Valid(p) && Typed(p, s) && CountersOk(p, s) && i < |s.tables| && CanFetch(p, s, i)
    requires IsRef(p, o) && Tracked(OpAt(p, o)) && CountOk(p, s, o)
    ensures Typed(p, FetchOp(p, s, i)) && CountOk(p, FetchOp(p, s, i), o)
  {
    var s' := FetchOp(p, s, i);
    var r := NextRef(s.tables[i]);
    PendingFetch(p, s, i, o);
    BegunFetch(p, s, i, Root(p, o.block));
    var j := RunsOn(p, Root(p, o.block));
    if j == i {
      FetchRest(p, s, i);
      OccursSnoc(RestOf(p, s'.tables[i], s'.exTimes), r, o);
    } else {
      FetchOtherRest(p, s, i, j);
    }
  }

  lemma AheadAdmit(p: Program, s: State, i: nat, o: Ref)
    requires Valid(p) && Typed(p, s)
    requires i < |s.tables| && CanAdmit(p, s, i) && AtEnd(p, s.tables[i])
    requires IsRef(p, o)
    ensures Typed(p, AdmitOp(p, s, i))
    ensures var b := Root(p, o.block);
            Ahead(p, AdmitOp(p, s, i), o) ==
            Ahead(p, s, o) + Bit(b > 0 && Parent(p, b) == s.tables[i].queue[0]) * LoopFactor(p, o.block)
  {
    AdmitRest(p, s, i);
    var r := s.tables[i].queue[0];
    var op := OpAt(p, r);
    var b := Root(p, o.block);
    assert ValidOp(p, r);
    if op.Launch? {
      assert Parent(p, op.body) == r;
      OccursUnroll(p, op.body, o);
    }
  }

  lemma FetchedAdmit(p: Program, s: State, i: nat, o: Ref)
    requires Valid(p) && Typed(p, s)
    requires i < |s.tables| && CanAdmit(p, s, i)
    requires IsRef(p, o) && Tracked(OpAt(p, o))
    ensures Typed(p, AdmitOp(p, s, i)) && Fetched(p, AdmitOp(p, s, i), o) == Fetched(p, s, o)
  {
    PendingAdmit(p, s, i, o);
  }

  lemma CountAdmit(p: Program, s: State, i: nat, o: Ref)
    requires Valid(p) && Typed(p, s)
    requires i < |s.tables| && CanAdmit(p, s, i) && AtEnd(p, s.tables[i])
    requires IsRef(p, o) && Tracked(OpAt(p, o)) && CountOk(p, s, o)
    ensures Typed(p, AdmitOp(p, s, i)) && CountOk(p, AdmitOp(p, s, i), o)
  {
    hide Valid, Typed, Fetched, Ahead, Begun, AdmitOp, Blocked, Root, LoopFactor, Parent;
    var b := Root(p, o.block);
    FetchedAdmit(p, s, i, o);
    AheadAdmit(p, s, i, o);
    BegunAdmit(p, s, i, b);
    MulDistributes(Begun(p, s, b), Bit(b > 0 && Parent(p, b) == s.tables[i].queue[0]), LoopFactor(p, o.block));
  }

  lemma PendingAdmit(p: Program, s: State, i: nat, o: Ref)
    requires Valid(p) && Typed(p, s)
    requires i < |s.tables| && CanAdmit(p, s, i)
    requires IsRef(p, o) && Tracked(OpAt(p, o))
    ensures Typed(p, AdmitOp(p, s, i)) && Pending(p, AdmitOp(p, s, i), o) == Pending(p, s, o)
  {
    AdmitTyped(p, s, i);
    OccursHead(s.tables[i].queue, o);
  }

  lemma BegunAdmit(p: Program, s: State, i: nat, b: nat)
    requires Valid(p) && Typed(p, s)
    requires i < |s.tables| && CanAdmit(p, s, i)
    requires b < |p.blocks| && !IsLoop(p, b)
    ensures Typed(p, AdmitOp(p, s, i))
    ensures Begun(p, AdmitOp(p, s, i), b) == Begun(p, s, b) + Bit(b > 0 && Parent(p, b) == s.tables[i].queue[0])
  {
    AdmitTyped(p, s, i);
  }

  lemma CountFire(p: Program, s: State, k: nat, o: Ref)
    requires Valid(p) && Typed(p, s) && k < |s.controlQueue|
    requires IsRef(p, o) && Tracked(OpAt(p, o)) && CountOk(p, s, o)
    ensures CountOk(p, FireOp(p, s, k), o)
  {
    OccursRemove(s.controlQueue, k, o);
    var root := Root(p, o.block);
    assert Begun(p, FireOp(p, s, k), root) == Begun(p, s, root);
  }

  lemma StartCounts(p: Program, s: State, i: nat, end: Cycle, o: Ref)
    requires Valid(p) && Typed(p, s) && i < |s.tables| && CanStart(p, s, i)
    requires IsRef(p, o) && Tracked(OpAt(p, o))
    ensures Fetched(p, StartOp(p, s, i, end), o) == Fetched(p, s, o)
  {
    var s' := StartOp(p, s, i, end);
    assert s'.controlQueue == s.controlQueue;
    assert s'.tables[Home(p, o)].queue == s.tables[Home(p, o)].queue;
  }

  lemma StartBegins(p: Program, s: State, i: nat, end: Cycle, b: nat)
    requires Valid(p) && Typed(p, s) && i < |s.tables| && CanStart(p, s, i)
    requires b < |p.blocks| && !IsLoop(p, b)
    ensures Begun(p, StartOp(p, s, i, end), b) == Begun(p, s, b)
  {
  }

  lemma CountStart(p: Program, s: State, i: nat, end: Cycle, o: Ref)
    requires Valid(p) && Typed(p, s) && i < |s.tables| && CanStart(p, s, i)
    requires IsRef(p, o) && Tracked(OpAt(p, o)) && CountOk(p, s, o)
    ensures CountOk(p, StartOp(p, s, i, end), o)
  {
    StartCounts(p, s, i, end, o);
    StartBegins(p, s, i, end, Root(p, o.block));
    var host := RunsOn(p, Root(p, o.block));
    assert StartOp(p, s, i, end).tables[host].cursor == s.tables[host].cursor;
  }

  lemma CountRetire(p: Program, s: State, i: nat, o: Ref)
    requires Valid(p) && Typed(p, s) && i < |s.tables| && CanRetire(s, i)
    requires IsRef(p, o) && CountOk(p, s, o)
    ensures CountOk(p, RetireOp(p, s, i), o)
  {
    var s' := RetireOp(p, s, i);
    var root := Root(p, o.block);
    assert Begun(p, s', root) == Begun(p, s, root);
    assert Fetched(p, s', o) == Fetched(p, s, o);
    assert Ahead(p, s', o) == Ahead(p, s, o);
  }

  // ----- Conservation of signals -----

  /** The launcher of launch `o` is executing its body. */
  predicate InBody(p: Program, l: LauncherTable, o: Ref)
    requires Valid(p) && IsRef(p, o) && OpAt(p, o).Launch? && InRange(p, l)
  {
    assert ValidOp(p, o);
    var body := OpAt(p, o).body;
    && l.cursor.At? && Root(p, l.cursor.block) == body
    && !Unstarted(l, o)
    && (AtEnd(p, l) ==> l.entry.Busy? && l.entry.op == YieldOf(p, body))
  }

  /** Started and not finished. */
  predicate Underway(p: Program, s: State, o: Ref)
    requires Valid(p) && Typed(p, s) && IsRef(p, o)
  {
    match OpAt(p, o)
    case MemCopy(_, _) => InFlight(s.tables[Home(p, o)], o)
    case Launch(_, _, _) => InBody(p, s.tables[Home(p, o)], o)
    case _ => false
  }

  /** Every start of an event or control operation has produced its signal or is underway. */
  predicate SignalOk(p: Program, s: State, o: Ref)
    requires Valid(p) && Typed(p, s) && IsRef(p, o)
  {
    Count(s.valueMap, o) + Bit(Underway(p, s, o)) == Count(s.opMap, o)
  }

  lemma BodyTaken(p: Program, i: nat, l: LauncherTable, ex: Tally, o: Ref)
    requires Valid(p) && HasNext(p, l) && TypedCursor(p, i, l)
    requires IsRef(p, o) && OpAt(p, o).Launch?
    ensures TypedCursor(p, i, Taken(p, l, ex))
    ensures InBody(p, Taken(p, l, ex), o) == InBody(p, l, o)
  {
    TakenTyped(p, i, l, ex);
    var r := NextRef(l);
    var op := OpAt(p, r);
    assert ValidOp(p, r) && ValidOp(p, o) && ValidBlock(p, r.block);
    if op.For? {
      assert Parent(p, op.body) == r;
    }
  }

  lemma SignalFetch(p: Program, s: State, i: nat, o: Ref)
    requires Valid(p) && Typed(p, s) && i < |s.tables| && CanFetch(p, s, i)
    requires IsRef(p, o) && SignalOk(p, s, o)
    ensures Typed(p, FetchOp(p, s, i)) && SignalOk(p, FetchOp(p, s, i), o)
  {
    FetchTyped(p, s, i);
    var h := Home(p, o);
    assert ValidOp(p, NextRef(s.tables[i]));
    if h != i {
      FetchOtherCursor(p, s, i, h);
    } else if OpAt(p, o).Launch? {
      BodyTaken(p, i, s.tables[i], s.exTimes, o);
    }
  }

  lemma SignalAdmit(p: Program, s: State, i: nat, o: Ref)
    requires Valid(p) && Typed(p, s)
    requires i < |s.tables| && CanAdmit(p, s, i) && AtEnd(p, s.tables[i])
    requires IsRef(p, o) && SignalOk(p, s, o)
    ensures Typed(p, AdmitOp(p, s, i)) && SignalOk(p, AdmitOp(p, s, i), o)
  {
    AdmitTyped(p, s, i);
    var r := s.tables[i].queue[0];
    var op := OpAt(p, r);
    assert ValidOp(p, r) && ValidOp(p, o);
    if OpAt(p, o).Launch? && Home(p, o) == i {
      assert Parent(p, OpAt(p, o).body) == o;
      assert ValidBlock(p, OpAt(p, o).body);
      if op.Launch? {
        assert Parent(p, op.body) == r;
      }
    }
  }

  lemma SignalFire(p: Program, s: State, k: nat, o: Ref)
    requires Valid(p) && Typed(p, s) && k < |s.controlQueue|
    requires IsRef(p, o) && SignalOk(p, s, o)
    ensures SignalOk(p, FireOp(p, s, k), o)
  {
    assert Underway(p, FireOp(p, s, k), o) == Underway(p, s, o);
  }

  lemma SignalStart(p: Program, s: State, i: nat, end: Cycle, o: Ref)
    requires Valid(p) && Typed(p, s) && i < |s.tables| && CanStart(p, s, i)
    requires IsRef(p, o) && OpAt(p, o).IsAsync() && SignalOk(p, s, o)
    ensures SignalOk(p, StartOp(p, s, i, end), o)
  {
    var r := s.tables[i].entry.op;
    assert ValidOp(p, r) && ValidOp(p, o);
    if r == o && OpAt(p, o).Launch? {
      assert Parent(p, OpAt(p, o).body) == o;
    }
  }

  lemma BodyRetire(p: Program, s: State, i: nat, o: Ref)
    requires Valid(p) && Typed(p, s) && i < |s.tables| && CanRetire(s, i)
    requires IsRef(p, o) && OpAt(p, o).Launch? && OpAt(p, o).device == i
    ensures var r := s.tables[i].entry.op;
            Bit(InBody(p, s.tables[i], o))
            == Bit(InBody(p, s.tables[i].(entry := Idle), o))
               + Bit(OpAt(p, r).Return? && r.block > 0 && Parent(p, r.block) == o)
  {
    var r := s.tables[i].entry.op;
    assert ValidOp(p, r) && ValidOp(p, o) && ValidBlock(p, r.block);
    assert Parent(p, OpAt(p, o).body) == o;
    assert ValidBlock(p, OpAt(p, o).body);
  }

  lemma SignalRetire(p: Program, s: State, i: nat, o: Ref)
    requires Valid(p) && Typed(p, s) && i < |s.tables| && CanRetire(s, i)
    requires IsRef(p, o) && OpAt(p, o).IsAsync() && SignalOk(p, s, o)
    ensures SignalOk(p, RetireOp(p, s, i), o)
  {
    var r := s.tables[i].entry.op;
    assert ValidOp(p, r) && ValidOp(p, o) && ValidBlock(p, r.block);
    if OpAt(p, o).Launch? && OpAt(p, o).device == i {
      BodyRetire(p, s, i, o);
      hide InBody;
    }
  }

  // ----- Tokens -----

  /** Operation `o` never runs ahead of signal `g`; an admitted event has a token to spare. */
  predicate TokenOk(p: Program, s: State, o: Ref, g: Ref)
    requires Valid(p) && Typed(p, s) && IsRef(p, o) && IsRef(p, g)
  {
    var used, made := Count(s.opMap, o) * BlockExs(p, g.block), BlockExs(p, o.block) * Count(s.valueMap, g);
    && used < made + BlockExs(p, g.block)
    && (OpAt(p, o).IsEvent() && Unstarted(s.tables[Home(p, o)], o) ==> used < made)
  }

  /** ... of any signal it waits for. */
  predicate TokensOk(p: Program, s: State, o: Ref)
    requires Valid(p) && Typed(p, s) && IsRef(p, o)
  {
    forall g :: g in OpAt(p, o).WaitsOn() ==> IsRef(p, g) && TokenOk(p, s, o, g)
  }

  lemma ReadyTokens(p: Program, s: State, o: Ref, g: Ref)
    requires Valid(p) && Typed(p, s) && IsRef(p, o) && g in OpAt(p, o).WaitsOn()
    requires !Blocked(p, s, o)
    ensures IsRef(p, g)
    ensures Count(s.opMap, o) * BlockExs(p, g.block) < BlockExs(p, o.block) * Count(s.valueMap, g)
  {
    assert ValidOp(p, o);
    assert !IsWaiting(p, s, o, g);
  }

  lemma TokenStart(p: Program, s: State, i: nat, end: Cycle, o: Ref, g: Ref)
    requires Valid(p) && Typed(p, s) && i < |s.tables| && CanStart(p, s, i)
    requires IsRef(p, o) && g in OpAt(p, o).WaitsOn() && IsRef(p, g) && TokenOk(p, s, o, g)
    ensures TokenOk(p, StartOp(p, s, i, end), o, g)
  {
    var r := s.tables[i].entry.op;
    if r == o {
      if OpAt(p, o).Await? {
        ReadyTokens(p, s, o, g);
      }
      MulDistributes(Count(s.opMap, o), 1, BlockExs(p, g.block));
    }
  }

  lemma TokenFire(p: Program, s: State, k: nat, o: Ref, g: Ref)
    requires Valid(p) && Typed(p, s) && k < |s.controlQueue| && !Blocked(p, s, s.controlQueue[k])
    requires IsRef(p, o) && g in OpAt(p, o).WaitsOn() && IsRef(p, g) && TokenOk(p, s, o, g)
    ensures TokenOk(p, FireOp(p, s, k), o, g)
  {
    var s' := FireOp(p, s, k);
    MulMonotone(BlockExs(p, o.block), Count(s.valueMap, g), Count(s'.valueMap, g));
    if s.controlQueue[k] == o {
      ReadyTokens(p, s, o, g);
      MulDistributes(Count(s.opMap, o), 1, BlockExs(p, g.block));
    }
  }

  lemma TokenRetire(p: Program, s: State, i: nat, o: Ref, g: Ref)
    requires Valid(p) && Typed(p, s) && i < |s.tables| && CanRetire(s, i)
    requires IsRef(p, o) && IsRef(p, g) && TokenOk(p, s, o, g)
    ensures TokenOk(p, RetireOp(p, s, i), o, g)
  {
    var s' := RetireOp(p, s, i);
    MulMonotone(BlockExs(p, o.block), Count(s.valueMap, g), Count(s'.valueMap, g));
  }

  lemma TokenAdmit(p: Program, s: State, i: nat, o: Ref, g: Ref)
    requires Valid(p) && Typed(p, s) && i < |s.tables| && CanAdmit(p, s, i)
    requires IsRef(p, o) && g in OpAt(p, o).WaitsOn() && IsRef(p, g) && TokenOk(p, s, o, g)
    ensures Typed(p, AdmitOp(p, s, i)) && TokenOk(p, AdmitOp(p, s, i), o, g)
  {
    AdmitTyped(p, s, i);
    if s.tables[i].queue[0] == o {
      ReadyTokens(p, s, o, g);
    }
  }

  lemma TokenFetch(p: Program, s: State, i: nat, o: Ref, g: Ref)
    requires Valid(p) && Typed(p, s) && i < |s.tables| && CanFetch(p, s, i)
    requires IsRef(p, o) && IsRef(p, g) && TokenOk(p, s, o, g)
    ensures Typed(p, FetchOp(p, s, i)) && TokenOk(p, FetchOp(p, s, i), o, g)
  {
    FetchTyped(p, s, i);
    assert ValidOp(p, NextRef(s.tables[i]));
  }

  // ----- All together -----

  ghost predicate Inv(p: Program, s: State)
    requires Valid(p)
  {
    && Typed(p, s)
    && CountersOk(p, s)
    && (forall o {:trigger CountOk(p, s, o)} :: IsRef(p, o) && Tracked(OpAt(p, o)) ==> CountOk(p, s, o))
    && (forall o {:trigger SignalOk(p, s, o)} :: IsRef(p, o) && OpAt(p, o).IsAsync() ==> SignalOk(p, s, o))
    && (forall o {:trigger TokensOk(p, s, o)} :: IsRef(p, o) ==> TokensOk(p, s, o))
  }

  lemma InitAhead(p: Program, o: Ref)
    requires Valid(p) && IsRef(p, o)
    ensures Ahead(p, Init(p), o) == if Root(p, o.block) == 0 then LoopFactor(p, o.block) else 0
  {
    OccursUnroll(p, 0, o);
    var l := Init(p).tables[0];
    assert l.cursor == At(0, 0);
    assert RestOf(p, l, map[]) == Unroll(p, 0);
  }

  lemma InitCount(p: Program, o: Ref)
    requires Valid(p) && IsRef(p, o)
    ensures CountOk(p, Init(p), o)
  {
    InitAhead(p, o);
    var s := Init(p);
    assert Begun(p, s, Root(p, o.block)) == Bit(Root(p, o.block) == 0);
    assert Fetched(p, s, o) == 0;
  }

  lemma InitToken(p: Program, o: Ref, g: Ref)
    requires Valid(p) && IsRef(p, o) && g in OpAt(p, o).WaitsOn()
    ensures IsRef(p, g) && TokenOk(p, Init(p), o, g)
  {
    assert ValidOp(p, o);
  }

  lemma InitSignal(p: Program, o: Ref)
    requires Valid(p) && IsRef(p, o)
    ensures SignalOk(p, Init(p), o)
  {
    if OpAt(p, o).Launch? {
      EventNotOnHost(p, o);
    }
  }

  lemma InvInit(p: Program)
    requires Valid(p)
    ensures Inv(p, Init(p))
  {
    var s := Init(p);
    assert CountersOk(p, s);
    hide CountersOk, CountOk, SignalOk, TokenOk, Init;
    forall o | IsRef(p, o) && Tracked(OpAt(p, o)) ensures CountOk(p, s, o) {
      InitCount(p, o);
    }
    forall o | IsRef(p, o) && OpAt(p, o).IsAsync() ensures SignalOk(p, s, o) {
      InitSignal(p, o);
    }
    forall o | IsRef(p, o) ensures TokensOk(p, s, o) {
      forall g | g in OpAt(p, o).WaitsOn() ensures IsRef(p, g) && TokenOk(p, s, o, g) {
        InitToken(p, o, g);
      }
    }
  }

  lemma InvFetch(p: Program, s: State, i: nat)
    requires Valid(p) && Inv(p, s) && i < |s.tables| && CanFetch(p, s, i)
    ensures Inv(p, FetchOp(p, s, i))
  {
    var s' := FetchOp(p, s, i);
    FetchTyped(p, s, i);
    FetchCounters(p, s, i);
    assert ValidOp(p, NextRef(s.tables[i]));
    forall o | IsRef(p, o) && Tracked(OpAt(p, o)) ensures CountOk(p, s', o) {
      CountFetch(p, s, i, o);
    }
    forall o | IsRef(p, o) && OpAt(p, o).IsAsync() ensures SignalOk(p, s', o) {
      SignalFetch(p, s, i, o);
    }
    forall o | IsRef(p, o) ensures TokensOk(p, s', o) {
      assert TokensOk(p, s, o);
      forall g | g in OpAt(p, o).WaitsOn() ensures IsRef(p, g) && TokenOk(p, s', o, g) {
        TokenFetch(p, s, i, o, g);
      }
    }
  }

  lemma InvAdmit(p: Program, s: State, i: nat)
    requires Valid(p) && Inv(p, s) && i < |s.tables| && CanAdmit(p, s, i) && AtEnd(p, s.tables[i])
    ensures Inv(p, AdmitOp(p, s, i))
  {
    var s' := AdmitOp(p, s, i);
    AdmitTyped(p, s, i);
    AdmitCounters(p, s, i);
    forall o | IsRef(p, o) && Tracked(OpAt(p, o)) ensures CountOk(p, s', o) {
      CountAdmit(p, s, i, o);
    }
    forall o | IsRef(p, o) && OpAt(p, o).IsAsync() ensures SignalOk(p, s', o) {
      SignalAdmit(p, s, i, o);
    }
    forall o | IsRef(p, o) ensures TokensOk(p, s', o) {
      assert TokensOk(p, s, o);
      forall g | g in OpAt(p, o).WaitsOn() ensures IsRef(p, g) && TokenOk(p, s', o, g) {
        TokenAdmit(p, s, i, o, g);
      }
    }
  }

  lemma InvFire(p: Program, s: State, k: nat)
    requires Valid(p) && Inv(p, s) && k < |s.controlQueue| && !Blocked(p, s, s.controlQueue[k])
    ensures Inv(p, FireOp(p, s, k))
  {
    var s' := FireOp(p, s, k);
    forall o | IsRef(p, o) && Tracked(OpAt(p, o)) ensures CountOk(p, s', o) {
      CountFire(p, s, k, o);
    }
    forall o | IsRef(p, o) && OpAt(p, o).IsAsync() ensures SignalOk(p, s', o) {
      SignalFire(p, s, k, o);
    }
    forall o | IsRef(p, o) ensures TokensOk(p, s', o) {
      assert TokensOk(p, s, o);
      forall g | g in OpAt(p, o).WaitsOn() ensures IsRef(p, g) && TokenOk(p, s', o, g) {
        TokenFire(p, s, k, o, g);
      }
    }
  }

  lemma InvStart(p: Program, s: State, i: nat, end: Cycle)
    requires Valid(p) && Inv(p, s) && i < |s.tables| && CanStart(p, s, i)
    ensures Inv(p, StartOp(p, s, i, end))
  {
    var s' := StartOp(p, s, i, end);
    forall c: nat | c < |p.blocks| && IsLoop(p, c)
      ensures CounterOk(p, s'.tables[RunsOn(p, Root(p, c))], s'.exTimes, c)
    {
      assert CounterOk(p, s.tables[RunsOn(p, Root(p, c))], s.exTimes, c);
    }
    forall o | IsRef(p, o) && Tracked(OpAt(p, o)) ensures CountOk(p, s', o) {
      CountStart(p, s, i, end, o);
    }
    forall o | IsRef(p, o) && OpAt(p, o).IsAsync() ensures SignalOk(p, s', o) {
      SignalStart(p, s, i, end, o);
    }
    forall o | IsRef(p, o) ensures TokensOk(p, s', o) {
      assert TokensOk(p, s, o);
      forall g | g in OpAt(p, o).WaitsOn() ensures IsRef(p, g) && TokenOk(p, s', o, g) {
        TokenStart(p, s, i, end, o, g);
      }
    }
  }

  lemma InvRetire(p: Program, s: State, i: nat)
    requires Valid(p) && Inv(p, s) && i < |s.tables| && CanRetire(s, i)
    ensures Inv(p, RetireOp(p, s, i))
  {
    var s' := RetireOp(p, s, i);
    forall c: nat | c < |p.blocks| && IsLoop(p, c)
      ensures CounterOk(p, s'.tables[RunsOn(p, Root(p, c))], s'.exTimes, c)
    {
      assert CounterOk(p, s.tables[RunsOn(p, Root(p, c))], s.exTimes, c);
    }
    forall o | IsRef(p, o) && Tracked(OpAt(p, o)) ensures CountOk(p, s', o) {
      CountRetire(p, s, i, o);
    }
    forall o | IsRef(p, o) && OpAt(p, o).IsAsync() ensures SignalOk(p, s', o) {
      SignalRetire(p, s, i, o);
    }
    forall o | IsRef(p, o) ensures TokensOk(p, s', o) {
      assert TokensOk(p, s, o);
      forall g | g in OpAt(p, o).WaitsOn() ensures IsRef(p, g) && TokenOk(p, s', o, g) {
        TokenRetire(p, s, i, o, g);
      }
    }
  }

  lemma CountPass(p: Program, s: State, o: Ref)
    requires Valid(p) && Typed(p, s) && IsRef(p, o) && CountOk(p, s, o)
    ensures CountOk(p, Advance(s), o)
  {
    var root := Root(p, o.block);
    assert Begun(p, Advance(s), root) == Begun(p, s, root);
    assert Fetched(p, Advance(s), o) == Fetched(p, s, o);
    assert Ahead(p, Advance(s), o) == Ahead(p, s, o);
  }

  lemma SignalPass(p: Program, s: State, o: Ref)
    requires Valid(p) && Typed(p, s) && IsRef(p, o) && SignalOk(p, s, o)
    ensures SignalOk(p, Advance(s), o)
  {
  }

  lemma TokenPass(p: Program, s: State, o: Ref, g: Ref)
    requires Valid(p) && Typed(p, s) && IsRef(p, o) && IsRef(p, g) && TokenOk(p, s, o, g)
    ensures TokenOk(p, Advance(s), o, g)
  {
  }

  lemma InvPass(p: Program, s: State)
    requires Valid(p) && Inv(p, s)
    ensures Inv(p, Advance(s))
  {
    var s' := Advance(s);
    forall o | IsRef(p, o) && Tracked(OpAt(p, o)) ensures CountOk(p, s', o) {
      CountPass(p, s, o);
    }
    forall o | IsRef(p, o) && OpAt(p, o).IsAsync() ensures SignalOk(p, s', o) {
      SignalPass(p, s, o);
    }
    forall o | IsRef(p, o) ensures TokensOk(p, s', o) {
      assert TokensOk(p, s, o);
      forall g | g in OpAt(p, o).WaitsOn() ensures IsRef(p, g) && TokenOk(p, s', o, g) {
        TokenPass(p, s, o, g);
      }
    }
  }

  lemma InvApply(p: Program, s: State, a: Action)
    requires Valid(p) && Inv(p, s) && Enabled(p, s, a)
    ensures Inv(p, Apply(p, s, a))
  {
    match a
    case Fetch(i) => InvFetch(p, s, i);
    case Admit(i) => InvAdmit(p, s, i);
    case Fire(k) => InvFire(p, s, k);
    case Start(i, end) => InvStart(p, s, i, end);
    case Pass => InvPass(p, s);
    case Retire(i) => InvRetire(p, s, i);
  }

  /** The invariant holds after every run of actions, in whatever order they come. */
  lemma {:induction false} InvReaches(p: Program, s: State, acts: seq<Action>, t: State)
    requires Valid(p) && Inv(p, s) && Reaches(p, s, acts, t)
    ensures Inv(p, t)
    decreases acts
  {
    if acts != [] {
      InvApply(p, s, acts[0]);
      InvReaches(p, Apply(p, s, acts[0]), acts[1..], t);
    }
  }
}
