/** The simulator as the source runs it: an object whose methods update its tables in place.
    Every method is proved to compute the corresponding step of Simulator.dfy. */
module Runners {
  import opened Programs
  import Sim = Simulator
  import opened Simulator
  import opened Effects
  import ControlFiring
  import RoundEffects

  /** Unfolding the fetch loop once. */
  lemma FetchOnce(p: Program, s: State, i: nat)
    requires Programs.Valid(p) && Typed(p, s) && i < |s.tables| && CanFetch(p, s, i)
    ensures var s' := FetchOp(p, s, i);
            && Typed(p, s') && |s'.tables| == |s.tables|
            && Sim.SetOpEntry(p, s', i) == Sim.SetOpEntry(p, s, i)
            && (s'.tables[i].entry.Idle? ==>
                  s'.tables[i].cursor == At(s.tables[i].cursor.block, s.tables[i].cursor.next + 1))
  {
    FetchTyped(p, s, i);
    assert ValidOp(p, NextRef(s.tables[i]));
  }

  lemma TakenEntry(p: Program, l: LauncherTable, ex: Tally)
    requires Programs.Valid(p) && HasNext(p, l) && !OpAt(p, NextRef(l)).IsAsync()
    ensures Taken(p, l, ex) == l.(entry := Busy(NextRef(l), 0, 0), cursor := Taken(p, l, ex).cursor)
  {
  }

  /** Unfolding one step of the control scan, the admission loop and the simulation loop. */
  lemma ScanOnce(p: Program, s: State, k: nat)
    requires Programs.Valid(p) && Typed(p, s) && k < |s.controlQueue|
    ensures CheckControlFrom(p, s, k) == if Blocked(p, s, s.controlQueue[k]) then CheckControlFrom(p, s, k + 1)
                                         else CheckControlFrom(p, FireOp(p, s, k), 0)
  {
  }

  lemma ScanDone(p: Program, s: State)
    requires Programs.Valid(p) && Typed(p, s)
    ensures CheckControlFrom(p, s, |s.controlQueue|) == s
    ensures Sim.CheckControlQueue(p, s) == CheckControlFrom(p, s, 0)
  {
  }

  lemma AdmitDone(p: Program, s: State)
    requires Programs.Valid(p) && Typed(p, s)
    ensures AdmitFrom(p, s, |s.tables|) == s
  {
  }

  lemma AdmitOneLauncher(p: Program, s: State, i: nat)
    requires Programs.Valid(p) && Typed(p, s) && 1 <= i < |s.tables|
    ensures var admitted := Sim.CheckEventQueue(p, s, i);
            var s' := Sim.CheckControlQueue(p, admitted);
            && admitted.controlQueue == s.controlQueue
            && |s'.tables| == |s.tables|
            && |s'.controlQueue| <= |s.controlQueue|
            && AdmitFrom(p, s, i) == AdmitFrom(p, s', if |s'.controlQueue| < |s.controlQueue| then 2 else i + 1)
  {
    CheckControlShrinks(p, Sim.CheckEventQueue(p, s, i), 0);
  }

  lemma SimulateOnce(p: Program, s: State, answers: seq<seq<Answer>>)
    requires Programs.Valid(p) && Typed(p, s) && TypedAnswers(p, answers)
    ensures var ready := Prepare(p, s);
            Simulate(p, s, answers) == if !Sim.Running(ready) || answers == [] then ready
                                       else Simulate(p, Execute(p, ready, answers[0]), answers[1..])
  {
  }

  class Runner {
    const program: Program

    var time: Cycle
    var opMap: Tally
    var valueMap: Tally
    var exTimes: Tally
    var controlQueue: seq<Ref>
    var launchTables: seq<LauncherTable>   // the host first
    var blockExs: seq<nat>

    ghost function Current(): State
      reads this
    {
      State(time, opMap, valueMap, exTimes, controlQueue, launchTables)
    }

    ghost predicate Valid()
      reads this
    {
      && Programs.Valid(program)
      && Typed(program, Current())
      && |blockExs| == |program.blocks|
      && forall b: nat :: b < |blockExs| ==> blockExs[b] == BlockExs(program, b)
    }

    constructor (p: Program)
      requires Programs.Valid(p)
      ensures Valid() && program == p && Current() == Init(p)
      ensures time == 1 && opMap == map[] && valueMap == map[] && exTimes == map[] && controlQueue == []
      ensures |launchTables| == p.launchers
      ensures forall i: nat :: i < |launchTables| ==>
        launchTables[i] == LauncherTable(Idle, if i == 0 then At(0, 0) else NoBlock, [])
    {
      program := p;
      time, opMap, valueMap, exTimes, controlQueue := 1, map[], map[], map[], [];
      launchTables := Init(p).tables;
      var exs := BuildExMap(p);
      blockExs := exs;
    }

    /** True while some signal operand has not been produced often enough. */
    method WaitForSignal(op: Ref) returns (waiting: bool)
      requires Valid() && IsRef(program, op)
      ensures waiting == Blocked(program, Current(), op)
      ensures waiting == Waits(program, Current(), op)
    {
      BlockedWaits(program, Current(), op);
      assert ValidOp(program, op);
      var signals := OpAt(program, op).WaitsOn();
      for k := 0 to |signals|
        invariant forall j :: 0 <= j < k ==> IsRef(program, signals[j]) && !IsWaiting(program, Current(), op, signals[j])
      {
        var signal := signals[k];
        assert signal in OpAt(program, op).WaitsOn();
        if signal !in valueMap ||
           Count(opMap, op) * blockExs[signal.block] >= blockExs[op.block] * valueMap[signal]
        {
          assert IsWaiting(program, Current(), op, signal);
          return true;
        }
      }
      return false;
    }

    /** Leave an asynchronous operation to its queue; false when an event queue is full. */
    method FetchAsync(i: nat) returns (more: bool)
      requires Valid() && i < |launchTables| && HasNext(program, launchTables[i])
      requires OpAt(program, NextRef(launchTables[i])).IsAsync()
      modifies this`exTimes, this`controlQueue, this`launchTables
      ensures Valid()
      ensures more == old(CanFetch(program, Current(), i))
      ensures Current() == if more then FetchOp(program, old(Current()), i) else old(Current())
      ensures var r := old(NextRef(launchTables[i]));
              var op := OpAt(program, r);
              && more == (op.Control? || (op.device < |old(launchTables)| &&
                                          |old(launchTables)[op.device].queue| != EVENT_QUEUE_SIZE))
              && (more ==> LeftOne(program, old(Current()), i, Current()))
    {
      ghost var before := Current();
      var l := launchTables[i];
      var r := NextRef(l);
      var op := OpAt(program, r);
      assert ValidOp(program, r);
      if op.IsEvent() && |launchTables[op.device].queue| == EVENT_QUEUE_SIZE {
        return false;
      }
      LeavesOne(program, before, i);
      hide Typed, Programs.Valid, LeftOne;
      launchTables := launchTables[i := l.(cursor := At(r.block, r.index + 1))];
      if op.Control? {
        controlQueue := controlQueue + [r];
      } else {
        var lt := launchTables[op.device];
        launchTables := launchTables[op.device := lt.(queue := lt.queue + [r])];
      }
      assert Current() == FetchOp(program, before, i);
      return true;
    }

    /** Where the next operation leads: a loop enters its body, a yield iterates or leaves. */
    method NextCursor(i: nat) returns (cursor: Cursor)
      requires Valid() && i < |launchTables| && HasNext(program, launchTables[i])
      requires !OpAt(program, NextRef(launchTables[i])).IsAsync()
      modifies this`exTimes
      ensures Valid() && cursor == old(Taken(program, launchTables[i], exTimes)).cursor
      ensures (cursor, exTimes) == Onward(program, NextRef(launchTables[i]), old(exTimes))
      ensures exTimes == if OpAt(program, NextRef(launchTables[i])).Yield?
                         then Bump(old(exTimes), NextRef(launchTables[i])) else old(exTimes)
    {
      var r := NextRef(launchTables[i]);
      var op := OpAt(program, r);
      assert ValidOp(program, r) && ValidBlock(program, r.block);
      cursor := At(r.block, r.index + 1);
      if op.For? {
        cursor := At(op.body, 0);
      } else if op.Yield? {
        exTimes := Bump(exTimes, r);
        if exTimes[r] % Trips(program, r.block) == 0 {
          var pop := Parent(program, r.block);
          cursor := At(pop.block, pop.index + 1);
        } else {
          cursor := At(r.block, 0);
        }
      }
    }

    /** Take up any other operation. */
    method FetchSync(i: nat)
      requires Valid() && i < |launchTables| && HasNext(program, launchTables[i])
      requires !OpAt(program, NextRef(launchTables[i])).IsAsync()
      modifies this`exTimes, this`controlQueue, this`launchTables
      ensures old(CanFetch(program, Current(), i))
      ensures Valid() && Current() == FetchOp(program, old(Current()), i)
      ensures FetchedUpTo(program, old(Current()), i, old(launchTables[i].cursor.next), Current())
    {
      ghost var before := Current();
      var l := launchTables[i];
      var r := NextRef(l);
      FetchTyped(program, before, i);
      TakenEntry(program, l, exTimes);
      TakesUp(program, before, i);
      hide FetchedUpTo;
      var cursor := NextCursor(i);
      hide Taken, Typed, Programs.Valid;
      launchTables := launchTables[i := l.(entry := Busy(r, 0, 0), cursor := cursor)];
      assert Current() == FetchOp(program, before, i);
    }

    /** Fetch for launcher i until it has an operation to work on or nothing is left. */
    method SetOpEntry(i: nat)
      requires Valid() && i < |launchTables|
      modifies this`exTimes, this`controlQueue, this`launchTables
      ensures Valid() && Current() == Sim.SetOpEntry(program, old(Current()), i)
      ensures FetchEffect(program, old(Current()), i, Current())
    {
      SetOpEntryEffect(program, Current(), i);
      hide FetchEffect;
      ghost var goal := Sim.SetOpEntry(program, Current(), i);
      while launchTables[i].entry.Idle? && launchTables[i].cursor.At?
            && launchTables[i].cursor.next < Length(program, launchTables[i].cursor.block)
        invariant Valid() && |launchTables| == program.launchers
        invariant Sim.SetOpEntry(program, Current(), i) == goal
        decreases launchTables[i].entry.Idle?,
                  if launchTables[i].cursor.At?
                  then Length(program, launchTables[i].cursor.block) - launchTables[i].cursor.next else 0
      {
        ghost var before := Current();
        if OpAt(program, NextRef(launchTables[i])).IsAsync() {
          var more := FetchAsync(i);
          if !more {
            return;
          }
        } else {
          FetchSync(i);
        }
        FetchOnce(program, before, i);
      }
    }

    /** Finish one control operation: its signal is produced at once. */
    method FireControl(iter: nat)
      requires Valid() && iter < |controlQueue|
      modifies this`opMap, this`valueMap, this`controlQueue
      ensures Valid() && Current() == FireOp(program, old(Current()), iter)
      ensures FireEffect(old(Current()), iter, Current())
    {
      var op := controlQueue[iter];
      opMap := Bump(opMap, op);
      valueMap := Bump(valueMap, op);
      controlQueue := controlQueue[..iter] + controlQueue[iter + 1..];
    }

    /** Look at one position of the control queue. */
    method ScanControl(iter: nat) returns (fired: bool)
      requires Valid() && iter < |controlQueue|
      modifies this`opMap, this`valueMap, this`controlQueue
      ensures Valid()
      ensures |controlQueue| == old(|controlQueue|) - (if fired then 1 else 0)
      ensures CheckControlFrom(program, old(Current()), iter)
           == CheckControlFrom(program, Current(), if fired then 0 else iter + 1)
    {
      ScanOnce(program, Current(), iter);
      var waiting := WaitForSignal(controlQueue[iter]);
      if !waiting {
        FireControl(iter);
      }
      fired := !waiting;
    }

    /** Fire every control operation that is ready, restarting the scan after each. */
    method CheckControlQueue() returns (generateSignal: bool)
      requires Valid()
      modifies this`opMap, this`valueMap, this`controlQueue
      ensures Valid() && Current() == Sim.CheckControlQueue(program, old(Current()))
      ensures generateSignal == (|controlQueue| < old(|controlQueue|))
      ensures |controlQueue| <= old(|controlQueue|)
      ensures ControlEffect(program, old(Current()), Current())
    {
      ghost var before := Current();
      hide CheckControlFrom, ControlEffect;
      ScanDone(program, Current());
      generateSignal := false;
      var iter := 0;
      while iter != |controlQueue|
        invariant Valid() && iter <= |controlQueue| <= old(|controlQueue|)
        invariant CheckControlFrom(program, Current(), iter) == Sim.CheckControlQueue(program, before)
        invariant generateSignal == (|controlQueue| < old(|controlQueue|))
        decreases |controlQueue|, |controlQueue| - iter
      {
        var fired := ScanControl(iter);
        if fired {
          iter := 0;
          generateSignal := true;
        } else {
          iter := iter + 1;
        }
      }
      ScanDone(program, Current());
      ControlFiring.CheckControlEffect(program, before);
    }

    /** Admit the first event of launcher i's queue when it is ready and the launcher is idle. */
    method CheckEventQueue(i: nat)
      requires Valid() && i < |launchTables|
      modifies this`launchTables
      ensures Valid() && Current() == Sim.CheckEventQueue(program, old(Current()), i)
      ensures AdmitEffect(program, old(Current()), i, Current())
    {
      CheckEventQueueEffect(program, Current(), i);
      hide AdmitEffect;
      var l := launchTables[i];
      if l.queue != [] {
        var op := l.queue[0];
        var waiting := WaitForSignal(op);
        if waiting {
          return;
        }
        if l.entry.Idle? {
          assert CanAdmit(program, Current(), i);
          AdmitTyped(program, Current(), i);
          var cursor := l.cursor;
          if OpAt(program, op).Launch? {
            cursor := At(OpAt(program, op).body, 0);
          }
          launchTables := launchTables[i := LauncherTable(Busy(op, 0, 0), cursor, l.queue[1..])];
        }
      }
    }

    /** One turn of the admission loop. */
    method AdmitAndCheck(i: nat) returns (generateSignal: bool)
      requires Valid() && 1 <= i < |launchTables|
      modifies this`opMap, this`valueMap, this`controlQueue, this`launchTables
      ensures Valid() && |launchTables| == old(|launchTables|)
      ensures |controlQueue| <= old(|controlQueue|)
      ensures generateSignal == (|controlQueue| < old(|controlQueue|))
      ensures AdmitFrom(program, old(Current()), i)
           == AdmitFrom(program, Current(), if generateSignal then 2 else i + 1)
    {
      AdmitOneLauncher(program, Current(), i);
      CheckEventQueue(i);
      generateSignal := CheckControlQueue();
    }

    /** The admission loop, with the iterator reset as the source does it. */
    method AdmitEvents()
      requires Valid()
      modifies this`opMap, this`valueMap, this`controlQueue, this`launchTables
      ensures Valid() && Current() == AdmitAll(program, old(Current()))
    {
      hide AdmitFrom;
      CheckEventQueue(0);
      var generateSignal := CheckControlQueue();
      var i := 1;
      while i != |launchTables|
        invariant Valid() && 1 <= i <= |launchTables|
        invariant AdmitFrom(program, Current(), i) == old(AdmitAll(program, Current()))
        decreases |controlQueue|, |launchTables| - i
      {
        generateSignal := AdmitAndCheck(i);
        if generateSignal {
          i := 1;
        }
        i := i + 1;
      }
      AdmitDone(program, Current());
    }

    /** Start launcher i's operation unless it waits, runs already, or its devices stall. */
    method ScheduleOp(i: nat, answer: Answer)
      requires Valid() && i < |launchTables|
      modifies this`opMap, this`launchTables
      ensures Valid() && Current() == Sim.ScheduleOp(program, old(Current()), i, answer)
      ensures StartEffect(program, old(Current()), i, answer, Current())
    {
      ScheduleOpEffect(program, Current(), i, answer);
      hide StartEffect;
      var l := launchTables[i];
      if l.entry.Idle? {
        return;
      }
      var op := l.entry.op;
      if OpAt(program, op).Await? {
        var waiting := WaitForSignal(op);
        if waiting {
          return;
        }
      }
      if !l.entry.IsStarted() {
        assert CanStart(program, Current(), i);
        hide Blocked, Programs.Valid;
        if CountsStarts(OpAt(program, op)) {
          opMap := Bump(opMap, op);
        }
        match ModelOp(OpAt(program, op), time, answer)
        case Stall => return;
        case Ends(at) =>
          launchTables := launchTables[i := l.(entry := Busy(op, time, at))];
      }
    }

    /** Move to the earliest end time, or one cycle on when nothing is running. */
    method AdvanceTime()
      requires Valid()
      modifies this`time
      ensures Valid() && Current() == Advance(old(Current()))
      ensures TimeEffect(old(Current()), Current())
    {
      RoundEffects.AdvanceEffect(Current());
      hide TimeEffect;
      var nextTimes: seq<Cycle> := [];
      for i := 0 to |launchTables|
        invariant nextTimes == EndTimes(launchTables[..i])
      {
        assert launchTables[..i + 1][..i] == launchTables[..i];
        var e := launchTables[i].entry;
        if e.IsStarted() {
          nextTimes := nextTimes + [e.end];
        }
      }
      assert launchTables[..|launchTables|] == launchTables;
      if nextTimes == [] {
        time := time + 1;
      } else {
        time := Min(nextTimes);
      }
    }

    /** Retire launcher i's operation when its end time has come. */
    method FinishOp(i: nat)
      requires Valid() && i < |launchTables|
      modifies this`valueMap, this`launchTables
      ensures Valid() && Current() == Sim.FinishOp(program, old(Current()), i)
      ensures FinishEffect(program, old(Current()), i, Current())
    {
      FinishOpEffect(program, Current(), i);
      hide FinishEffect;
      var e := launchTables[i].entry;
      if e.IsStarted() && e.IsDone(time) {
        if OpAt(program, e.op).MemCopy? {
          valueMap := Bump(valueMap, e.op);
        } else if OpAt(program, e.op).Return? && e.op.block > 0 {
          valueMap := Bump(valueMap, Parent(program, e.op.block));
        }
        launchTables := launchTables[i := launchTables[i].(entry := Idle)];
      }
    }

    method FetchAndAdmit()
      requires Valid()
      modifies this
      ensures Valid() && Current() == Prepare(program, old(Current()))
      ensures time == old(time)
    {
      for i := 0 to |launchTables|
        invariant Valid() && |launchTables| == program.launchers && i <= |launchTables|
        invariant FetchAll(program, Current(), i) == old(FetchAll(program, Current(), 0))
        invariant time == old(time)
      {
        assert FetchAll(program, Current(), i) == FetchAll(program, Sim.SetOpEntry(program, Current(), i), i + 1);
        hide FetchAll;
        SetOpEntry(i);
      }
      AdmitEvents();
    }

    method ScheduleOps(answers: seq<Answer>)
      requires Valid() && |answers| == |launchTables|
      modifies this`opMap, this`launchTables
      ensures Valid() && Current() == ScheduleAll(program, old(Current()), answers, 0)
    {
      for i := 0 to |launchTables|
        invariant Valid() && |launchTables| == program.launchers && i <= |launchTables|
        invariant ScheduleAll(program, Current(), answers, i) == old(ScheduleAll(program, Current(), answers, 0))
      {
        assert ScheduleAll(program, Current(), answers, i)
            == ScheduleAll(program, Sim.ScheduleOp(program, Current(), i, answers[i]), answers, i + 1);
        hide ScheduleAll;
        ScheduleOp(i, answers[i]);
      }
    }

    method FinishOps()
      requires Valid()
      modifies this`valueMap, this`launchTables
      ensures Valid() && Current() == FinishAll(program, old(Current()), 0)
    {
      for i := 0 to |launchTables|
        invariant Valid() && |launchTables| == program.launchers && i <= |launchTables|
        invariant FinishAll(program, Current(), i) == old(FinishAll(program, Current(), 0))
      {
        assert FinishAll(program, Current(), i) == FinishAll(program, Sim.FinishOp(program, Current(), i), i + 1);
        hide FinishAll;
        FinishOp(i);
      }
    }

    method StartAndFinish(answers: seq<Answer>)
      requires Valid() && |answers| == |launchTables|
      modifies this
      ensures Valid() && Current() == Execute(program, old(Current()), answers)
    {
      ScheduleOps(answers);
      AdvanceTime();
      FinishOps();
    }

    method AnyBusy() returns (running: bool)
      requires Valid()
      ensures running == Sim.Running(Current())
      ensures !running <==> forall i :: 0 <= i < |launchTables| ==> launchTables[i].entry.Idle?
    {
      running := false;
      for i := 0 to |launchTables|
        invariant running == exists j: nat :: j < i && launchTables[j].entry.Busy?
      {
        running := running || launchTables[i].entry.Busy?;
      }
    }

    /** The simulation loop.  `answers` stands for the device models; the loop ends when no
        launcher has anything to work on, or when the answers run out. */
    method SimulateFunction(answers: seq<seq<Answer>>) returns (done: bool)
      requires Valid() && TypedAnswers(program, answers)
      modifies this
      ensures Valid() && Current() == Simulate(program, old(Current()), answers)
      ensures done <==> forall i :: 0 <= i < |launchTables| ==> launchTables[i].entry.Idle?
    {
      ghost var goal := Simulate(program, Current(), answers);
      var round := 0;
      while true
        invariant Valid() && round <= |answers|
        invariant Simulate(program, Current(), answers[round..]) == goal
        decreases |answers| - round
      {
        SimulateOnce(program, Current(), answers[round..]);
        hide Simulate, Prepare, Execute;
        FetchAndAdmit();
        var running := AnyBusy();
        if !running || round == |answers| {
          return !running;
        }
        assert answers[round..][1..] == answers[round + 1..] && answers[round..][0] == answers[round];
        StartAndFinish(answers[round]);
        round := round + 1;
      }
    }
  }
}
