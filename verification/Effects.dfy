/** What each step of the simulator does, in terms of entries, counters, queues and the
    operands of the individual operations. */
module Effects {
  import opened Programs
  import opened Simulator

  // ----- Waiting -----

  /** The signal of g was not produced, or not once more per start of o, given how often the
      blocks of the two are executed. */
  predicate Lacks(p: Program, s: State, o: Ref, g: Ref)
    requires Valid(p) && IsRef(p, o) && IsRef(p, g)
  {
    g !in s.valueMap || Count(s.opMap, o) * BlockExs(p, g.block) >= BlockExs(p, o.block) * s.valueMap[g]
  }

  /** Some of the given signals is lacking. */
  predicate LacksAny(p: Program, s: State, o: Ref, signals: seq<Ref>)
    requires Valid(p) && IsRef(p, o)
  {
    exists g :: g in signals && IsRef(p, g) && Lacks(p, s, o, g)
  }

  /** A control operation, a memcpy and an await wait for all their signals, a launch for its
      start signal, and nothing else waits. */
  predicate Waits(p: Program, s: State, o: Ref)
    requires Valid(p) && IsRef(p, o)
  {
    match OpAt(p, o)
    case Control(signals) => LacksAny(p, s, o, signals)
    case MemCopy(_, signals) => LacksAny(p, s, o, signals)
    case Await(signals) => LacksAny(p, s, o, signals)
    case Launch(_, start, _) => LacksAny(p, s, o, [start])
    case Plain => false
    case For(_, _, _, _) => false
    case Yield => false
    case Return => false
  }

  /** Operation o has g among the signals it waits for. */
  predicate WaitsFor(p: Program, o: Ref, g: Ref)
    requires IsRef(p, o)
  {
    match OpAt(p, o)
    case Control(signals) => g in signals
    case MemCopy(_, signals) => g in signals
    case Await(signals) => g in signals
    case Launch(_, start, _) => g == start
    case Plain => false
    case For(_, _, _, _) => false
    case Yield => false
    case Return => false
  }

  lemma BlockedWaits(p: Program, s: State, o: Ref)
    requires Valid(p) && IsRef(p, o)
    ensures Blocked(p, s, o) <==> Waits(p, s, o)
  {
    assert ValidOp(p, o);
    assert forall g :: g in OpAt(p, o).WaitsOn() ==> IsRef(p, g) && (IsWaiting(p, s, o, g) <==> Lacks(p, s, o, g));
  }

  /** Operand by operand: a memcpy, an await or a control operation waits as long as one of its
      own signals was not produced, or not more often than the operation was started, both
      taken per execution of the blocks; a launch looks at its start signal. */
  lemma WaitsExactly(p: Program, s: State, o: Ref)
    requires Valid(p) && IsRef(p, o)
    ensures OpAt(p, o).MemCopy? || OpAt(p, o).Await? || OpAt(p, o).Control? ==>
      (Blocked(p, s, o) <==>
        (exists g :: g in OpAt(p, o).signals && IsRef(p, g) &&
          (g !in s.valueMap || Count(s.opMap, o) * BlockExs(p, g.block) >= BlockExs(p, o.block) * s.valueMap[g])))
    ensures OpAt(p, o).Launch? && IsRef(p, OpAt(p, o).start) ==>
      var g := OpAt(p, o).start;
      (Blocked(p, s, o) <==>
        (g !in s.valueMap || Count(s.opMap, o) * BlockExs(p, g.block) >= BlockExs(p, o.block) * s.valueMap[g]))
    ensures !(OpAt(p, o).MemCopy? || OpAt(p, o).Await? || OpAt(p, o).Control? || OpAt(p, o).Launch?) ==>
      !Blocked(p, s, o)
  {
    BlockedWaits(p, s, o);
    if OpAt(p, o).Launch? {
      assert OpAt(p, o).start in [OpAt(p, o).start];
    }
  }

  // ----- Fetching -----

  predicate LeftToQueues(op: Op) {
    op.Control? || op.Launch? || op.MemCopy?
  }

  /** The control operations of block b from position i up to m. */
  function ControlsIn(p: Program, b: nat, i: nat, m: nat): seq<Ref>
    requires b < |p.blocks| && i <= m <= |p.blocks[b].ops|
    decreases m - i
  {
    if i == m then []
    else (if p.blocks[b].ops[i].Control? then [Ref(b, i)] else []) + ControlsIn(p, b, i + 1, m)
  }

  /** The launches and memcpys for device d among them. */
  function EventsIn(p: Program, b: nat, i: nat, m: nat, d: nat): seq<Ref>
    requires b < |p.blocks| && i <= m <= |p.blocks[b].ops|
    decreases m - i
  {
    if i == m then []
    else
      var op := p.blocks[b].ops[i];
      (if (op.Launch? || op.MemCopy?) && op.device == d then [Ref(b, i)] else []) + EventsIn(p, b, i + 1, m, d)
  }

  lemma YieldInLoop(p: Program, r: Ref)
    requires Valid(p) && IsRef(p, r) && OpAt(p, r).Yield?
    ensures r.block > 0 && OpAt(p, Parent(p, r.block)).For?
    ensures OpAt(p, Parent(p, r.block)).step > 0 && OpAt(p, Parent(p, r.block)).lb < OpAt(p, Parent(p, r.block)).ub
  {
    assert ValidBlock(p, r.block);
    assert ValidOp(p, Parent(p, r.block));
  }

  /** Where a launcher goes on after it has taken up operation r, and the counters then. */
  function Onward(p: Program, r: Ref, ex: Tally): (Cursor, Tally)
    requires Valid(p) && IsRef(p, r)
  {
    match OpAt(p, r)
    case For(_, _, _, body) => (At(body, 0), ex)
    case Yield =>
      YieldInLoop(p, r);
      var count := Count(ex, r) + 1;
      var loop := Parent(p, r.block);
      if count % TripCount(OpAt(p, loop).lb, OpAt(p, loop).ub, OpAt(p, loop).step) == 0
      then (At(loop.block, loop.index + 1), ex[r := count])
      else (At(r.block, 0), ex[r := count])
    case _ => (At(r.block, r.index + 1), ex)
  }

  /** Launcher i has left everything from its position up to position m to the queues, in
      order, and nothing else has changed. */
  ghost predicate LeftUpTo(p: Program, s: State, i: nat, m: nat, t: State)
    requires Valid(p) && Typed(p, s) && i < |s.tables| && s.tables[i].cursor.At?
  {
    var b, n := s.tables[i].cursor.block, s.tables[i].cursor.next;
    && n <= m <= |p.blocks[b].ops|
    && (forall k :: n <= k < m ==> LeftToQueues(p.blocks[b].ops[k]))
    && t.time == s.time && t.opMap == s.opMap && t.valueMap == s.valueMap
    && t.controlQueue == s.controlQueue + ControlsIn(p, b, n, m)
    && |t.tables| == |s.tables|
    && (forall d: nat :: d < |s.tables| ==> t.tables[d].queue == s.tables[d].queue + EventsIn(p, b, n, m, d))
    && (forall d: nat :: d < |s.tables| && d != i ==>
          t.tables[d].entry == s.tables[d].entry && t.tables[d].cursor == s.tables[d].cursor)
  }

  /** It stops at position m: at the end of the block, in front of an event for a full queue,
      or with an operation of its own. */
  predicate StoppedAt(p: Program, b: nat, m: nat, ex: Tally, i: nat, t: State)
    requires Valid(p) && b < |p.blocks| && m <= |p.blocks[b].ops| && i < |t.tables|
  {
    var ops := p.blocks[b].ops;
    if m == |ops| then
      t.tables[i].entry.Idle? && t.tables[i].cursor == At(b, m) && t.exTimes == ex
    else if LeftToQueues(ops[m]) then
      && !ops[m].Control? && ops[m].device < |t.tables| && |t.tables[ops[m].device].queue| == EVENT_QUEUE_SIZE
      && t.tables[i].entry.Idle? && t.tables[i].cursor == At(b, m) && t.exTimes == ex
    else
      && t.tables[i].entry == Busy(Ref(b, m), 0, 0)
      && (t.tables[i].cursor, t.exTimes) == Onward(p, Ref(b, m), ex)
  }

  ghost predicate FetchedUpTo(p: Program, s: State, i: nat, m: nat, t: State)
    requires Valid(p) && Typed(p, s) && i < |s.tables| && s.tables[i].cursor.At?
  {
    LeftUpTo(p, s, i, m, t) && StoppedAt(p, s.tables[i].cursor.block, m, s.exTimes, i, t)
  }

  /** The whole fetch loop of launcher i. */
  ghost predicate FetchEffect(p: Program, s: State, i: nat, t: State)
    requires Valid(p) && Typed(p, s) && i < |s.tables|
  {
    if s.tables[i].entry.Idle? && s.tables[i].cursor.At? then exists m :: FetchedUpTo(p, s, i, m, t)
    else t == s
  }

  lemma StopsHere(p: Program, s: State, i: nat)
    requires Valid(p) && Typed(p, s) && i < |s.tables| && !CanFetch(p, s, i)
    requires s.tables[i].entry.Idle? && s.tables[i].cursor.At?
    ensures FetchedUpTo(p, s, i, s.tables[i].cursor.next, s)
  {
    var r := NextRef(s.tables[i]);
    assert IsRef(p, r) ==> ValidOp(p, r);
  }

  lemma TakesUp(p: Program, s: State, i: nat)
    requires Valid(p) && Typed(p, s) && i < |s.tables| && CanFetch(p, s, i)
    requires !LeftToQueues(OpAt(p, NextRef(s.tables[i])))
    ensures FetchedUpTo(p, s, i, s.tables[i].cursor.next, FetchOp(p, s, i))
    ensures FetchOp(p, s, i).tables[i].entry.Busy?
  {
    TakenOnward(p, s.tables[i], s.exTimes);
    var t, l := FetchOp(p, s, i), Taken(p, s.tables[i], s.exTimes);
    assert t == s.(exTimes := t.exTimes, tables := s.tables[i := l])
        && t.exTimes == if OpAt(p, NextRef(s.tables[i])).Yield? then Bump(s.exTimes, NextRef(s.tables[i])) else s.exTimes
    by {
      assert ValidOp(p, NextRef(s.tables[i]));
      hide Taken, Onward;
    }
    hide FetchOp, Taken, Onward, Valid, Typed;
  }

  lemma TakenOnward(p: Program, l: LauncherTable, ex: Tally)
    requires Valid(p) && HasNext(p, l) && !LeftToQueues(OpAt(p, NextRef(l)))
    ensures var (cursor, ex') := Onward(p, NextRef(l), ex);
            && Taken(p, l, ex) == l.(entry := Busy(NextRef(l), 0, 0), cursor := cursor)
            && ex' == if OpAt(p, NextRef(l)).Yield? then Bump(ex, NextRef(l)) else ex
  {
    if OpAt(p, NextRef(l)).Yield? {
      YieldInLoop(p, NextRef(l));
    }
  }

  /** One operation was left to a queue. */
  ghost predicate LeftOne(p: Program, s: State, i: nat, t: State)
    requires Valid(p) && Typed(p, s) && i < |s.tables| && HasNext(p, s.tables[i])
  {
    var b, n := s.tables[i].cursor.block, s.tables[i].cursor.next;
    && t == s.(controlQueue := s.controlQueue + ControlsIn(p, b, n, n + 1), tables := t.tables)
    && |t.tables| == |s.tables|
    && (forall d: nat :: d < |s.tables| ==> t.tables[d].queue == s.tables[d].queue + EventsIn(p, b, n, n + 1, d))
    && (forall d: nat :: d < |s.tables| && d != i ==>
          t.tables[d].entry == s.tables[d].entry && t.tables[d].cursor == s.tables[d].cursor)
    && t.tables[i].entry.Idle? && t.tables[i].cursor == At(b, n + 1)
  }

  lemma LeavesTables(p: Program, s: State, i: nat)
    requires Valid(p) && Typed(p, s) && i < |s.tables| && CanFetch(p, s, i)
    requires LeftToQueues(OpAt(p, NextRef(s.tables[i])))
    ensures var t, r := FetchOp(p, s, i), NextRef(s.tables[i]);
            && t == s.(controlQueue := s.controlQueue + (if OpAt(p, r).Control? then [r] else []), tables := t.tables)
            && |t.tables| == |s.tables|
            && forall d: nat :: d < |s.tables| ==>
                 t.tables[d] == LauncherTable(
                   s.tables[d].entry,
                   if d == i then At(r.block, r.index + 1) else s.tables[d].cursor,
                   s.tables[d].queue + if OpAt(p, r).IsEvent() && OpAt(p, r).device == d then [r] else [])
  {
    assert ValidOp(p, NextRef(s.tables[i]));
    assert s.controlQueue + [] == s.controlQueue;
    assert forall d: nat :: d < |s.tables| ==> s.tables[d].queue + [] == s.tables[d].queue;
  }

  lemma LeavesOne(p: Program, s: State, i: nat)
    requires Valid(p) && Typed(p, s) && i < |s.tables| && CanFetch(p, s, i)
    requires LeftToQueues(OpAt(p, NextRef(s.tables[i])))
    ensures Typed(p, FetchOp(p, s, i)) && LeftOne(p, s, i, FetchOp(p, s, i))
  {
    FetchTyped(p, s, i);
    LeavesTables(p, s, i);
    var r := NextRef(s.tables[i]);
    OneControl(p, r);
    hide Typed, Valid, FetchOp, ControlsIn, EventsIn;
    var next := r.index + 1;
    forall d: nat | d < |s.tables|
      ensures EventsIn(p, r.block, r.index, next, d)
           == if OpAt(p, r).IsEvent() && OpAt(p, r).device == d then [r] else []
    {
      OneEvent(p, r, d);
    }
  }

  lemma OneControl(p: Program, r: Ref)
    requires IsRef(p, r)
    ensures ControlsIn(p, r.block, r.index, r.index + 1) == if OpAt(p, r).Control? then [r] else []
  {
  }

  lemma OneEvent(p: Program, r: Ref, d: nat)
    requires IsRef(p, r)
    ensures EventsIn(p, r.block, r.index, r.index + 1, d)
         == if OpAt(p, r).IsEvent() && OpAt(p, r).device == d then [r] else []
  {
  }

  lemma MoreLeft(p: Program, s: State, i: nat, mid: State, m: nat, t: State)
    requires Valid(p) && Typed(p, s) && Typed(p, mid) && i < |s.tables| && HasNext(p, s.tables[i])
    requires LeftToQueues(OpAt(p, NextRef(s.tables[i])))
    requires LeftOne(p, s, i, mid) && LeftUpTo(p, mid, i, m, t)
    ensures LeftUpTo(p, s, i, m, t)
  {
    var b, n := s.tables[i].cursor.block, s.tables[i].cursor.next;
    var next := n + 1;
    hide Typed, Valid, ControlsIn, EventsIn;
    assert t.controlQueue == s.controlQueue + ControlsIn(p, b, n, m) by {
      ControlsSplit(p, b, n, m);
      Associates(s.controlQueue, ControlsIn(p, b, n, next), ControlsIn(p, b, next, m));
    }
    forall d: nat | d < |s.tables| ensures t.tables[d].queue == s.tables[d].queue + EventsIn(p, b, n, m, d) {
      EventsSplit(p, b, n, m, d);
      Associates(s.tables[d].queue, EventsIn(p, b, n, next, d), EventsIn(p, b, next, m, d));
    }
  }

  lemma Associates<T>(a: seq<T>, b: seq<T>, c: seq<T>)
    ensures (a + b) + c == a + (b + c)
  {
  }

  lemma ControlsSplit(p: Program, b: nat, n: nat, m: nat)
    requires b < |p.blocks| && n < m <= |p.blocks[b].ops|
    ensures ControlsIn(p, b, n, m) == ControlsIn(p, b, n, n + 1) + ControlsIn(p, b, n + 1, m)
  {
  }

  lemma EventsSplit(p: Program, b: nat, n: nat, m: nat, d: nat)
    requires b < |p.blocks| && n < m <= |p.blocks[b].ops|
    ensures EventsIn(p, b, n, m, d) == EventsIn(p, b, n, n + 1, d) + EventsIn(p, b, n + 1, m, d)
  {
  }

  lemma {:induction false} FetchLoop(p: Program, s: State, i: nat) returns (m: nat)
    requires Valid(p) && Typed(p, s) && i < |s.tables| && s.tables[i].entry.Idle? && s.tables[i].cursor.At?
    ensures FetchedUpTo(p, s, i, m, SetOpEntry(p, s, i))
    decreases Length(p, s.tables[i].cursor.block) - s.tables[i].cursor.next
  {
    m := s.tables[i].cursor.next;
    if !CanFetch(p, s, i) {
      StopsHere(p, s, i);
    } else {
      var s' := FetchOp(p, s, i);
      FetchTyped(p, s, i);
      if LeftToQueues(OpAt(p, NextRef(s.tables[i]))) {
        LeavesOne(p, s, i);
        assert SetOpEntry(p, s, i) == SetOpEntry(p, s', i);
        hide Typed, Valid, SetOpEntry, FetchOp, StoppedAt, LeftUpTo;
        m := FetchLoop(p, s', i);
        MoreLeft(p, s, i, s', m, SetOpEntry(p, s', i));
      } else {
        TakesUp(p, s, i);
      }
    }
  }

  lemma SetOpEntryEffect(p: Program, s: State, i: nat)
    requires Valid(p) && Typed(p, s) && i < |s.tables|
    ensures FetchEffect(p, s, i, SetOpEntry(p, s, i))
  {
    if s.tables[i].entry.Idle? && s.tables[i].cursor.At? {
      var m := FetchLoop(p, s, i);
    }
  }

  // ----- Admitting and firing -----

  /** Launcher i takes up the first event of its queue exactly when it is idle and the event's
      signals are there; a launch puts it at the start of its body. */
  function AdmittedTable(p: Program, s: State, i: nat): LauncherTable
    requires Valid(p) && Typed(p, s) && i < |s.tables|
  {
    var l := s.tables[i];
    if l.queue != [] && l.entry.Idle? && !Waits(p, s, l.queue[0]) then
      LauncherTable(
        Busy(l.queue[0], 0, 0),
        match OpAt(p, l.queue[0]) case Launch(_, _, body) => At(body, 0) case _ => l.cursor,
        l.queue[1..])
    else l
  }

  predicate AdmitEffect(p: Program, s: State, i: nat, t: State)
    requires Valid(p) && Typed(p, s) && i < |s.tables|
  {
    t == s.(tables := s.tables[i := AdmittedTable(p, s, i)])
  }

  lemma CheckEventQueueEffect(p: Program, s: State, i: nat)
    requires Valid(p) && Typed(p, s) && i < |s.tables|
    ensures AdmitEffect(p, s, i, CheckEventQueue(p, s, i))
  {
    assert s.tables == s.tables[i := s.tables[i]];
    if s.tables[i].queue != [] {
      BlockedWaits(p, s, s.tables[i].queue[0]);
    }
  }

  /** One firing: a start and a production are counted and the queue entry goes. */
  predicate FireEffect(s: State, k: nat, t: State)
    requires k < |s.controlQueue|
  {
    var r := s.controlQueue[k];
    t == s.(opMap := s.opMap[r := Count(s.opMap, r) + 1],
            valueMap := s.valueMap[r := Count(s.valueMap, r) + 1],
            controlQueue := s.controlQueue[..k] + s.controlQueue[k + 1..])
  }

  function Times(q: seq<Ref>, r: Ref): nat {
    multiset(q)[r]
  }

  /** The whole scan: nothing is left that has all its signals, and every entry that went was
      started and produced once. */
  ghost predicate ControlEffect(p: Program, s: State, t: State)
    requires Valid(p) && Typed(p, s)
  {
    && t.time == s.time && t.exTimes == s.exTimes && t.tables == s.tables
    && (forall r :: r in t.controlQueue ==> IsRef(p, r) && Waits(p, t, r))
    && (forall r :: Times(t.controlQueue, r) <= Times(s.controlQueue, r))
    && (forall r :: Count(t.opMap, r) == Count(s.opMap, r) + Times(s.controlQueue, r) - Times(t.controlQueue, r))
    && (forall r :: Count(t.valueMap, r) == Count(s.valueMap, r) + Times(s.controlQueue, r) - Times(t.controlQueue, r))
  }

  predicate AllIdle(s: State) {
    forall i: nat :: i < |s.tables| ==> s.tables[i].entry.Idle?
  }

  // ----- Starting -----

  predicate InProgress(e: OpEntry) {
    e.Busy? && e.start != 0 && e.end != 0
  }

  /** The entry of a launcher after it was asked to start its operation.  An await starts when
      none of its signals is lacking, other control flow at once, and both end at once; a
      memcpy ends when its devices say; anything else may also be put off. */
  function StartedEntry(p: Program, s: State, e: OpEntry, answer: Answer): OpEntry
    requires Valid(p) && (e.Busy? ==> IsRef(p, e.op))
  {
    if e.Idle? || InProgress(e) then e
    else
      match OpAt(p, e.op)
      case Plain => if answer.Stall? then e else Busy(e.op, s.time, answer.at)
      case MemCopy(_, _) => Busy(e.op, s.time, if answer.Stall? then s.time else answer.at)
      case Await(signals) => if LacksAny(p, s, e.op, signals) then e else Busy(e.op, s.time, s.time)
      case Control(_) => e
      case Launch(_, _, _) => Busy(e.op, s.time, s.time)
      case For(_, _, _, _) => Busy(e.op, s.time, s.time)
      case Yield => Busy(e.op, s.time, s.time)
      case Return => Busy(e.op, s.time, s.time)
  }

  /** Starts of launches, memcpys and awaits are counted. */
  predicate StartEffect(p: Program, s: State, i: nat, answer: Answer, t: State)
    requires Valid(p) && Typed(p, s) && i < |s.tables|
  {
    var e := s.tables[i].entry;
    var e' := StartedEntry(p, s, e, answer);
    && t.tables == s.tables[i := s.tables[i].(entry := e')]
    && t == s.(opMap := t.opMap, tables := t.tables)
    && t.opMap == if e' != e && (OpAt(p, e.op).Launch? || OpAt(p, e.op).MemCopy? || OpAt(p, e.op).Await?)
                  then s.opMap[e.op := Count(s.opMap, e.op) + 1] else s.opMap
  }

  lemma ScheduleOpEffect(p: Program, s: State, i: nat, answer: Answer)
    requires Valid(p) && Typed(p, s) && i < |s.tables|
    ensures StartEffect(p, s, i, answer, ScheduleOp(p, s, i, answer))
  {
    var l := s.tables[i];
    assert s.tables == s.tables[i := l.(entry := l.entry)];
    if l.entry.Busy? {
      assert TypedEntry(p, i, l);
      BlockedWaits(p, s, l.entry.op);
    }
  }

  /** An await that was not started yet starts, and ends, now if and only if every signal it
      joins was produced once more than it has used. */
  lemma AwaitStarts(p: Program, s: State, i: nat, answer: Answer)
    requires Valid(p) && Typed(p, s) && i < |s.tables|
    requires s.tables[i].entry.Busy? && IsRef(p, s.tables[i].entry.op) && OpAt(p, s.tables[i].entry.op).Await?
    requires s.tables[i].entry.start == 0
    ensures var e := s.tables[i].entry;
            var o := e.op;
            var ready := forall g :: g in OpAt(p, o).signals && IsRef(p, g) ==>
              && g in s.valueMap
              && Count(s.opMap, o) * BlockExs(p, g.block) < BlockExs(p, o.block) * s.valueMap[g];
            && ScheduleOp(p, s, i, answer).tables[i].entry == (if ready then Busy(o, s.time, s.time) else e)
            && Count(ScheduleOp(p, s, i, answer).opMap, o) == Count(s.opMap, o) + if ready then 1 else 0
  {
    ScheduleOpEffect(p, s, i, answer);
  }

  /** A launch, a loop, a yield or a return that was not started yet always starts, and ends, now. */
  lemma FlowStarts(p: Program, s: State, i: nat, answer: Answer)
    requires Valid(p) && Typed(p, s) && i < |s.tables|
    requires s.tables[i].entry.Busy? && IsRef(p, s.tables[i].entry.op) && s.tables[i].entry.start == 0
    requires var op := OpAt(p, s.tables[i].entry.op); op.Launch? || op.For? || op.Yield? || op.Return?
    ensures var o := s.tables[i].entry.op;
            && ScheduleOp(p, s, i, answer).tables[i].entry == Busy(o, s.time, s.time)
            && Count(ScheduleOp(p, s, i, answer).opMap, o)
            == Count(s.opMap, o) + if OpAt(p, o).Launch? then 1 else 0
  {
    ScheduleOpEffect(p, s, i, answer);
  }

  /** A memcpy that was not started yet always starts now and ends when its devices say; an
      operation that is modelled by its duration starts unless they stall it. */
  lemma TransferStarts(p: Program, s: State, i: nat, answer: Answer)
    requires Valid(p) && Typed(p, s) && i < |s.tables|
    requires s.tables[i].entry.Busy? && IsRef(p, s.tables[i].entry.op) && s.tables[i].entry.start == 0
    requires var op := OpAt(p, s.tables[i].entry.op); op.MemCopy? || op.Plain?
    ensures var e := s.tables[i].entry;
            var t := ScheduleOp(p, s, i, answer);
            && (answer.Ends? ==> t.tables[i].entry == Busy(e.op, s.time, answer.at))
            && (answer.Stall? ==> t.tables[i].entry == if OpAt(p, e.op).MemCopy? then Busy(e.op, s.time, s.time) else e)
            && Count(t.opMap, e.op) == Count(s.opMap, e.op) + if OpAt(p, e.op).MemCopy? then 1 else 0
  {
    ScheduleOpEffect(p, s, i, answer);
  }

  // ----- Time and retirement -----

  /** Time is the least end of what is in progress, or one later when nothing is. */
  ghost predicate TimeEffect(s: State, t: State) {
    && t == s.(time := t.time)
    && (forall i: nat :: i < |s.tables| && InProgress(s.tables[i].entry) ==> t.time <= s.tables[i].entry.end)
    && if exists i: nat :: i < |s.tables| && InProgress(s.tables[i].entry)
       then exists i: nat :: i < |s.tables| && InProgress(s.tables[i].entry) && s.tables[i].entry.end == t.time
       else t.time == s.time + 1
  }

  /** An operation that was started and has come to its end is over: a memcpy has produced its
      signal, and the return of a launch body that of the launch. */
  predicate FinishEffect(p: Program, s: State, i: nat, t: State)
    requires Valid(p) && Typed(p, s) && i < |s.tables|
  {
    var e := s.tables[i].entry;
    if InProgress(e) && e.end <= s.time then
      && t.tables == s.tables[i := s.tables[i].(entry := Idle)]
      && t == s.(valueMap := t.valueMap, tables := t.tables)
      && t.valueMap ==
         if OpAt(p, e.op).MemCopy? then s.valueMap[e.op := Count(s.valueMap, e.op) + 1]
         else if OpAt(p, e.op).Return? && e.op.block > 0 then
           var launch := Parent(p, e.op.block);
           s.valueMap[launch := Count(s.valueMap, launch) + 1]
         else s.valueMap
    else t == s
  }

  lemma FinishOpEffect(p: Program, s: State, i: nat)
    requires Valid(p) && Typed(p, s) && i < |s.tables|
    ensures FinishEffect(p, s, i, FinishOp(p, s, i))
  {
    assert TypedEntry(p, i, s.tables[i]);
  }
}
