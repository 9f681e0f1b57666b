/** The simulator's state and its steps as functions.  The class in Runner.dfy updates the
    same state in place and is proved to compute these functions. */
module Simulator {
  import opened Programs

  const EVENT_QUEUE_SIZE := 20000

  /** A point in simulated time.  The simulation starts at one, and zero marks what has not
      been started. */
  type Cycle = c: nat | 0 < c witness 1

  /** The operation a launcher is working on.  Both times are zero until it is started. */
  datatype OpEntry = Idle | Busy(op: Ref, start: nat, end: nat) {
    predicate IsStarted() { Busy? && start != 0 && end != 0 }
    predicate IsDone(time: nat) requires Busy? { time >= end }
  }

  datatype Cursor = NoBlock | At(block: nat, next: nat)

  /** The host, a processor or a DMA engine. */
  datatype LauncherTable = LauncherTable(entry: OpEntry, cursor: Cursor, queue: seq<Ref>)

  datatype State = State(
    time: Cycle,
    opMap: Tally,               // starts of each launch, memcpy, await and control operation
    valueMap: Tally,            // productions of the signal each operation defines
    exTimes: Tally,             // executions of each loop's yield, never reset
    controlQueue: seq<Ref>,
    tables: seq<LauncherTable>) // the host, then the launchers in the order of their table

  // ----- Well-formed states -----

  predicate TypedEntry(p: Program, i: nat, l: LauncherTable)
    requires Valid(p)
  {
    l.entry.Busy? ==>
      var op := l.entry.op;
      && IsRef(p, op) && !OpAt(p, op).Control? && Home(p, op) == i
      && (OpAt(p, op).Launch? ==> l.cursor == At(OpAt(p, op).body, 0))
      && (OpAt(p, op).Return? ==> l.cursor == At(op.block, Length(p, op.block)))
  }

  predicate TypedCursor(p: Program, i: nat, l: LauncherTable)
    requires Valid(p)
  {
    l.cursor.At? ==>
      && l.cursor.block < |p.blocks|
      && l.cursor.next <= Length(p, l.cursor.block)
      && (l.cursor.next == Length(p, l.cursor.block) ==> !IsLoop(p, l.cursor.block))
      && RunsOn(p, Root(p, l.cursor.block)) == i
  }

  predicate TypedQueue(p: Program, i: nat, q: seq<Ref>) {
    forall r :: r in q ==> IsRef(p, r) && OpAt(p, r).IsEvent() && OpAt(p, r).device == i
  }

  predicate Typed(p: Program, s: State)
    requires Valid(p)
  {
    && |s.tables| == p.launchers
    && (forall i: nat :: i < |s.tables| ==>
          && TypedCursor(p, i, s.tables[i])
          && TypedEntry(p, i, s.tables[i])
          && TypedQueue(p, i, s.tables[i].queue))
    && (forall r :: r in s.controlQueue ==> IsRef(p, r) && OpAt(p, r).Control?)
  }

  function Init(p: Program): (s: State)
    requires Valid(p)
    ensures Typed(p, s)
  {
    State(1, map[], map[], map[], [],
          seq(p.launchers, i => LauncherTable(Idle, if i == 0 then At(0, 0) else NoBlock, [])))
  }

  // ----- Fetching -----

  predicate AtEnd(p: Program, l: LauncherTable)
    requires Valid(p)
  {
    l.cursor.At? ==> l.cursor.block < |p.blocks| && l.cursor.next >= Length(p, l.cursor.block)
  }

  function NextRef(l: LauncherTable): Ref
    requires l.cursor.At?
  {
    Ref(l.cursor.block, l.cursor.next)
  }

  predicate HasNext(p: Program, l: LauncherTable)
    requires Valid(p)
  {
    l.entry.Idle? && l.cursor.At? && l.cursor.block < |p.blocks| && l.cursor.next < Length(p, l.cursor.block)
  }

  predicate CanFetch(p: Program, s: State, i: nat)
    requires Valid(p) && Typed(p, s) && i < |s.tables|
  {
    var l := s.tables[i];
    && HasNext(p, l)
    && var op := OpAt(p, NextRef(l));
       assert ValidOp(p, NextRef(l));
       op.IsEvent() ==> |s.tables[op.device].queue| != EVENT_QUEUE_SIZE
  }

  /** Where a yield leads: out of the loop when the counter is a multiple of the trip count. */
  function YieldTarget(p: Program, b: nat, count: nat): Cursor
    requires Valid(p) && b < |p.blocks| && IsLoop(p, b)
  {
    if count % Trips(p, b) == 0 then At(Parent(p, b).block, Parent(p, b).index + 1) else At(b, 0)
  }

  /** The launcher after its next operation `NextRef(l)` was taken: asynchronous operations
      are left to the queues, anything else is taken up by the launcher itself. */
  function Taken(p: Program, l: LauncherTable, ex: Tally): LauncherTable
    requires Valid(p) && HasNext(p, l)
  {
    var r := NextRef(l);
    var past := At(r.block, r.index + 1);
    assert ValidBlock(p, r.block);
    var op := OpAt(p, r);
    if op.IsAsync() then l.(cursor := past)
    else
      l.(entry := Busy(r, 0, 0),
         cursor := match op
                   case For(_, _, _, body) => At(body, 0)
                   case Yield => YieldTarget(p, r.block, Count(ex, r) + 1)
                   case _ => past)
  }

  lemma TakenTyped(p: Program, i: nat, l: LauncherTable, ex: Tally)
    requires Valid(p) && HasNext(p, l) && TypedCursor(p, i, l)
    ensures TypedCursor(p, i, Taken(p, l, ex)) && TypedEntry(p, i, Taken(p, l, ex))
  {
    var r := NextRef(l);
    var op := OpAt(p, r);
    assert ValidOp(p, r) && ValidBlock(p, r.block);
    if op.For? {
      assert Parent(p, op.body) == r;
    } else if op.Yield? {
      assert Root(p, r.block) == Root(p, Parent(p, r.block).block);
    }
  }

  /** One turn of the fetch loop. */
  function FetchOp(p: Program, s: State, i: nat): State
    requires Valid(p) && Typed(p, s) && i < |s.tables| && CanFetch(p, s, i)
  {
    var l := s.tables[i];
    var r := NextRef(l);
    var op := OpAt(p, r);
    var tables := s.tables[i := Taken(p, l, s.exTimes)];
    assert ValidOp(p, r);
    s.(exTimes := if op.Yield? then Bump(s.exTimes, r) else s.exTimes,
       controlQueue := if op.Control? then s.controlQueue + [r] else s.controlQueue,
       tables := if op.IsEvent() then Enqueue(tables, op.device, r) else tables)
  }

  function Enqueue(tables: seq<LauncherTable>, d: nat, r: Ref): (tables': seq<LauncherTable>)
    requires d < |tables|
    ensures |tables'| == |tables|
    ensures forall j :: 0 <= j < |tables| ==>
      tables'[j] == if j == d then tables[j].(queue := tables[j].queue + [r]) else tables[j]
  {
    tables[d := tables[d].(queue := tables[d].queue + [r])]
  }

  lemma FetchTyped(p: Program, s: State, i: nat)
    requires Valid(p) && Typed(p, s) && i < |s.tables| && CanFetch(p, s, i)
    ensures Typed(p, FetchOp(p, s, i))
  {
    TakenTyped(p, i, s.tables[i], s.exTimes);
    var s' := FetchOp(p, s, i);
    var r := NextRef(s.tables[i]);
    assert ValidOp(p, r);
    forall j: nat | j < |s'.tables|
      ensures TypedCursor(p, j, s'.tables[j]) && TypedEntry(p, j, s'.tables[j])
      ensures TypedQueue(p, j, s'.tables[j].queue)
    {
      if j != i {
        assert s'.tables[j].(queue := s.tables[j].queue) == s.tables[j];
      }
    }
  }

  /** The whole fetch loop of one launcher. */
  function SetOpEntry(p: Program, s: State, i: nat): (s': State)
    requires Valid(p) && Typed(p, s) && i < |s.tables|
    ensures Typed(p, s')
    decreases if s.tables[i].cursor.At? then Length(p, s.tables[i].cursor.block) - s.tables[i].cursor.next else 0
  {
    if !CanFetch(p, s, i) then s
    else
      FetchTyped(p, s, i);
      var s' := FetchOp(p, s, i);
      if s'.tables[i].entry.Busy? then s' else SetOpEntry(p, s', i)
  }

  function FetchAll(p: Program, s: State, i: nat): (s': State)
    requires Valid(p) && Typed(p, s) && i <= |s.tables|
    ensures Typed(p, s')
    decreases |s.tables| - i
  {
    if i == |s.tables| then s else FetchAll(p, SetOpEntry(p, s, i), i + 1)
  }

  // ----- Readiness -----

  /** Operation `o` has used up the productions of signal `g`: starts and productions are
      compared per execution of their blocks. */
  predicate IsWaiting(p: Program, s: State, o: Ref, g: Ref)
    requires Valid(p) && IsRef(p, o) && IsRef(p, g)
  {
    g !in s.valueMap ||
    Count(s.opMap, o) * BlockExs(p, g.block) >= BlockExs(p, o.block) * s.valueMap[g]
  }

  predicate Blocked(p: Program, s: State, o: Ref)
    requires Valid(p) && IsRef(p, o)
  {
    assert ValidOp(p, o);
    exists g :: g in OpAt(p, o).WaitsOn() && IsWaiting(p, s, o, g)
  }

  // ----- Admission of events and firing of control operations -----

  predicate CanAdmit(p: Program, s: State, i: nat)
    requires Valid(p) && Typed(p, s) && i < |s.tables|
  {
    var l := s.tables[i];
    l.queue != [] && !Blocked(p, s, l.queue[0]) && l.entry.Idle?
  }

  function AdmitOp(p: Program, s: State, i: nat): State
    requires Valid(p) && Typed(p, s) && i < |s.tables| && CanAdmit(p, s, i)
  {
    var l := s.tables[i];
    var op := OpAt(p, l.queue[0]);
    s.(tables := s.tables[i := LauncherTable(
      Busy(l.queue[0], 0, 0),
      if op.Launch? then At(op.body, 0) else l.cursor,
      l.queue[1..])])
  }

  lemma AdmitTyped(p: Program, s: State, i: nat)
    requires Valid(p) && Typed(p, s) && i < |s.tables| && CanAdmit(p, s, i)
    ensures Typed(p, AdmitOp(p, s, i))
  {
    var r := s.tables[i].queue[0];
    var op := OpAt(p, r);
    assert ValidOp(p, r);
    if op.Launch? {
      assert Parent(p, op.body) == r;
    }
  }

  function FireOp(p: Program, s: State, k: nat): (s': State)
    requires Valid(p) && Typed(p, s) && k < |s.controlQueue|
    ensures Typed(p, s')
  {
    var r := s.controlQueue[k];
    s.(opMap := Bump(s.opMap, r),
       valueMap := Bump(s.valueMap, r),
       controlQueue := s.controlQueue[..k] + s.controlQueue[k + 1..])
  }

  /** Scan the control queue from position k; restart from the front after every firing. */
  function CheckControlFrom(p: Program, s: State, k: nat): (s': State)
    requires Valid(p) && Typed(p, s) && k <= |s.controlQueue|
    ensures Typed(p, s') && s'.tables == s.tables && s'.time == s.time && s'.exTimes == s.exTimes
    decreases |s.controlQueue|, |s.controlQueue| - k
  {
    if k == |s.controlQueue| then s
    else if Blocked(p, s, s.controlQueue[k]) then CheckControlFrom(p, s, k + 1)
    else CheckControlFrom(p, FireOp(p, s, k), 0)
  }

  function CheckControlQueue(p: Program, s: State): (s': State)
    requires Valid(p) && Typed(p, s)
    ensures Typed(p, s') && s'.tables == s.tables && s'.time == s.time && s'.exTimes == s.exTimes
  {
    CheckControlFrom(p, s, 0)
  }

  function CheckEventQueue(p: Program, s: State, i: nat): (s': State)
    requires Valid(p) && Typed(p, s) && i < |s.tables|
    ensures Typed(p, s') && |s'.tables| == |s.tables|
  {
    if CanAdmit(p, s, i) then AdmitTyped(p, s, i); AdmitOp(p, s, i) else s
  }

  /** The admission loop over the launchers.  When a control operation fires, the source
      moves its iterator back to the first launcher and then still increments it. */
  function AdmitFrom(p: Program, s: State, i: nat): (s': State)
    requires Valid(p) && Typed(p, s) && 1 <= i <= |s.tables|
    ensures Typed(p, s')
    decreases |s.controlQueue|, |s.tables| - i
  {
    if i == |s.tables| then s
    else
      var admitted := CheckEventQueue(p, s, i);
      var s' := CheckControlQueue(p, admitted);
      CheckControlShrinks(p, admitted, 0);
      AdmitFrom(p, s', if |s'.controlQueue| < |admitted.controlQueue| then 2 else i + 1)
  }

  lemma {:induction false} CheckControlShrinks(p: Program, s: State, k: nat)
    requires Valid(p) && Typed(p, s) && k <= |s.controlQueue|
    ensures |CheckControlFrom(p, s, k).controlQueue| <= |s.controlQueue|
    ensures |CheckControlFrom(p, s, k).controlQueue| == |s.controlQueue| ==> CheckControlFrom(p, s, k) == s
    decreases |s.controlQueue|, |s.controlQueue| - k
  {
    if k < |s.controlQueue| {
      if Blocked(p, s, s.controlQueue[k]) {
        CheckControlShrinks(p, s, k + 1);
      } else {
        CheckControlShrinks(p, FireOp(p, s, k), 0);
      }
    }
  }

  function AdmitAll(p: Program, s: State): (s': State)
    requires Valid(p) && Typed(p, s)
    ensures Typed(p, s')
  {
    AdmitFrom(p, CheckControlQueue(p, CheckEventQueue(p, s, 0)), 1)
  }

  // ----- Starting -----

  /** What the timing models of the devices answer: not now, or when the operation ends.
      Nothing keeps that end from lying before the time of the request. */
  datatype Answer = Stall | Ends(at: Cycle)

  /** Control flow takes no time, only reads can stall; the answers of the device models are
      arbitrary otherwise. */
  function ModelOp(op: Op, time: Cycle, answer: Answer): Answer {
    match op
    case Plain => answer
    case MemCopy(_, _) => if answer.Stall? then Ends(time) else answer
    case _ => Ends(time)
  }

  predicate CountsStarts(op: Op) {
    op.IsEvent() || op.Await?
  }

  predicate CanStart(p: Program, s: State, i: nat)
    requires Valid(p) && Typed(p, s) && i < |s.tables|
  {
    var e := s.tables[i].entry;
    e.Busy? && !e.IsStarted() && (OpAt(p, e.op).Await? ==> !Blocked(p, s, e.op))
  }

  function StartOp(p: Program, s: State, i: nat, end: Cycle): (s': State)
    requires Valid(p) && Typed(p, s) && i < |s.tables| && CanStart(p, s, i)
    ensures Typed(p, s') && |s'.tables| == |s.tables| && s'.time == s.time
  {
    var l := s.tables[i];
    s.(opMap := if CountsStarts(OpAt(p, l.entry.op)) then Bump(s.opMap, l.entry.op) else s.opMap,
       tables := s.tables[i := l.(entry := Busy(l.entry.op, s.time, end))])
  }

  function ScheduleOp(p: Program, s: State, i: nat, answer: Answer): (s': State)
    requires Valid(p) && Typed(p, s) && i < |s.tables|
    ensures Typed(p, s') && |s'.tables| == |s.tables| && s'.time == s.time
  {
    if !CanStart(p, s, i) then s
    else
      match ModelOp(OpAt(p, s.tables[i].entry.op), s.time, answer)
      case Stall => s
      case Ends(at) => StartOp(p, s, i, at)
  }

  function ScheduleAll(p: Program, s: State, answers: seq<Answer>, i: nat): (s': State)
    requires Valid(p) && Typed(p, s) && |answers| == |s.tables| && i <= |s.tables|
    ensures Typed(p, s') && |s'.tables| == |s.tables| && s'.time == s.time
    decreases |s.tables| - i
  {
    if i == |s.tables| then s else ScheduleAll(p, ScheduleOp(p, s, i, answers[i]), answers, i + 1)
  }

  // ----- Advancing and retiring -----

  function EndTimes(tables: seq<LauncherTable>): seq<Cycle> {
    if tables == [] then []
    else
      var e := tables[|tables| - 1].entry;
      EndTimes(tables[..|tables| - 1]) + if e.IsStarted() then [e.end] else []
  }

  function Min(s: seq<Cycle>): (m: Cycle)
    requires s != []
    ensures m in s && forall x :: x in s ==> m <= x
  {
    if |s| == 1 then s[0]
    else
      var m := Min(s[..|s| - 1]);
      var x := s[|s| - 1];
      assert s == s[..|s| - 1] + [x];
      if x < m then x else m
  }

  function NextTime(s: State): Cycle {
    var ends := EndTimes(s.tables);
    if ends == [] then s.time + 1 else Min(ends)
  }

  function Advance(s: State): State {
    s.(time := NextTime(s))
  }

  predicate CanRetire(s: State, i: nat)
    requires i < |s.tables|
  {
    var e := s.tables[i].entry;
    e.IsStarted() && e.IsDone(s.time)
  }

  /** A memcpy produces its own signal, the return of a launch body that of the launch. */
  function RetireOp(p: Program, s: State, i: nat): (s': State)
    requires Valid(p) && Typed(p, s) && i < |s.tables| && CanRetire(s, i)
    ensures Typed(p, s') && |s'.tables| == |s.tables|
  {
    var r := s.tables[i].entry.op;
    s.(valueMap := match OpAt(p, r)
                   case MemCopy(_, _) => Bump(s.valueMap, r)
                   case Return => if r.block == 0 then s.valueMap else Bump(s.valueMap, Parent(p, r.block))
                   case _ => s.valueMap,
       tables := s.tables[i := s.tables[i].(entry := Idle)])
  }

  function FinishOp(p: Program, s: State, i: nat): (s': State)
    requires Valid(p) && Typed(p, s) && i < |s.tables|
    ensures Typed(p, s') && |s'.tables| == |s.tables|
  {
    if CanRetire(s, i) then RetireOp(p, s, i) else s
  }

  function FinishAll(p: Program, s: State, i: nat): (s': State)
    requires Valid(p) && Typed(p, s) && i <= |s.tables|
    ensures Typed(p, s') && |s'.tables| == |s.tables|
    decreases |s.tables| - i
  {
    if i == |s.tables| then s else FinishAll(p, FinishOp(p, s, i), i + 1)
  }

  // ----- Rounds -----

  predicate Running(s: State) {
    exists i: nat :: i < |s.tables| && s.tables[i].entry.Busy?
  }

  /** The first half of a round: fetch, then admit events and fire control operations. */
  function Prepare(p: Program, s: State): (s': State)
    requires Valid(p) && Typed(p, s)
    ensures Typed(p, s')
  {
    AdmitAll(p, FetchAll(p, s, 0))
  }

  /** The second half: start what can start, move to the next end time, retire. */
  function Execute(p: Program, s: State, answers: seq<Answer>): (s': State)
    requires Valid(p) && Typed(p, s) && |answers| == |s.tables|
    ensures Typed(p, s')
  {
    FinishAll(p, Advance(ScheduleAll(p, s, answers, 0)), 0)
  }

  /** What the timing models answer, round by round and launcher by launcher. */
  predicate TypedAnswers(p: Program, answers: seq<seq<Answer>>) {
    forall k :: 0 <= k < |answers| ==> |answers[k]| == p.launchers
  }

  /** The simulation loop.  It stops when no launcher has anything to work on. */
  function Simulate(p: Program, s: State, answers: seq<seq<Answer>>): (s': State)
    requires Valid(p) && Typed(p, s) && TypedAnswers(p, answers)
    ensures Typed(p, s')
    decreases answers
  {
    var ready := Prepare(p, s);
    if !Running(ready) || answers == [] then ready
    else Simulate(p, Execute(p, ready, answers[0]), answers[1..])
  }
}
