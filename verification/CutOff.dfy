/** A program that is cut off: its first launch floods the queue of another processor and, when
    that queue is full, loses the rest of its loop to the next launch. */
module CutOff {
  import opened Programs
  import opened Simulator
  import opened Actions
  import opened ControlFiring
  import opened Timing
  import opened Rounds

  const START := Ref(0, 0)      // control_start
  const FIRST := Ref(0, 1)      // launch of the loop on processor 1
  const SECOND := Ref(0, 2)     // launch of an empty body on processor 1
  const EVENT := Ref(2, 0)      // launch of a slow body on processor 2
  const AGAIN := Ref(2, 1)      // yield of the loop
  const SLOW := Ref(3, 0)

  const FLOOD := Program([
    Block([Control([]), Launch(1, START, 1), Launch(1, START, 4), Return], START),
    Block([For(0, 30000, 1, 2), Return], FIRST),
    Block([Launch(2, START, 3), Yield], Ref(1, 0)),
    Block([Plain, Return], EVENT),
    Block([Return], SECOND)], 3)

  lemma FloodValid()
    ensures Valid(FLOOD)
    ensures Parent(FLOOD, 1) == FIRST && Parent(FLOOD, 2) == Ref(1, 0)
    ensures Parent(FLOOD, 3) == EVENT && Parent(FLOOD, 4) == SECOND
    ensures !IsLoop(FLOOD, 0) && !IsLoop(FLOOD, 1) && IsLoop(FLOOD, 2) && !IsLoop(FLOOD, 3) && !IsLoop(FLOOD, 4)
    ensures Trips(FLOOD, 2) == 30000 && YieldOf(FLOOD, 2) == AGAIN
    ensures BlockExs(FLOOD, 0) == BlockExs(FLOOD, 1) == 1 && BlockExs(FLOOD, 2) == 30000
  {
    var p := FLOOD;
    forall b: nat | b < |p.blocks| ensures ValidBlock(p, b) {
      if b == 0 {
      } else if b == 1 {
        assert p.blocks[1].parent == FIRST;
      } else if b == 2 {
        assert p.blocks[2].parent == Ref(1, 0);
      } else if b == 3 {
        assert p.blocks[3].parent == EVENT;
      } else {
        assert b == 4 && p.blocks[4].parent == SECOND;
      }
    }
    forall r | IsRef(p, r) ensures ValidOp(p, r) {
      assert r.block == 0 || r.block == 1 || r.block == 2 || r.block == 3 || r.block == 4;
    }
  }

  // ----- One round with three launchers -----

  /** The first half of a round, from what the launchers fetch. */
  lemma PrepareThree(p: Program, s: State, a: State, b: State, c: State)
    requires Valid(p) && Typed(p, s) && p.launchers == 3
    requires SetOpEntry(p, s, 0) == a
    requires Typed(p, a) && SetOpEntry(p, a, 1) == b
    requires Typed(p, b) && SetOpEntry(p, b, 2) == c
    ensures Typed(p, c) && Fired(p, s) == CheckControlFrom(p, c, 0)
    ensures Prepare(p, s) == CheckEventQueue(p, CheckEventQueue(p, CheckEventQueue(p, Fired(p, s), 0), 1), 2)
  {
    FetchAllOnce(p, s, 0);
    FetchAllOnce(p, a, 1);
    FetchAllOnce(p, b, 2);
    FetchAllOnce(p, c, 3);
    AdmitAllIsOnePass(p, c);
    var fired := Fired(p, s);
    AdmitUnfolds(p, fired, 0);
    AdmitUnfolds(p, CheckEventQueue(p, fired, 0), 1);
    AdmitUnfolds(p, CheckEventQueue(p, CheckEventQueue(p, fired, 0), 1), 2);
    AdmitUnfolds(p, CheckEventQueue(p, CheckEventQueue(p, CheckEventQueue(p, fired, 0), 1), 2), 3);
  }

  function StartThree(p: Program, s: State, answers: seq<Answer>): (t: State)
    requires Valid(p) && Typed(p, s) && p.launchers == 3 == |answers|
    ensures Typed(p, t)
  {
    ScheduleOp(p, ScheduleOp(p, ScheduleOp(p, s, 0, answers[0]), 1, answers[1]), 2, answers[2])
  }

  function FinishThree(p: Program, s: State): State
    requires Valid(p) && Typed(p, s) && p.launchers == 3
  {
    FinishOp(p, FinishOp(p, FinishOp(p, s, 0), 1), 2)
  }

  lemma ExecuteThree(p: Program, s: State, answers: seq<Answer>)
    requires Valid(p) && Typed(p, s) && p.launchers == 3 == |answers|
    ensures Execute(p, s, answers) == FinishThree(p, Advance(StartThree(p, s, answers)))
  {
    ScheduleOnce(p, s, answers, 0);
    var a := ScheduleOp(p, s, 0, answers[0]);
    ScheduleOnce(p, a, answers, 1);
    var b := ScheduleOp(p, a, 1, answers[1]);
    ScheduleOnce(p, b, answers, 2);
    ScheduleOnce(p, ScheduleOp(p, b, 2, answers[2]), answers, 3);
    var passed := Advance(StartThree(p, s, answers));
    FinishOnce(p, passed, 0);
    FinishOnce(p, FinishOp(p, passed, 0), 1);
    FinishOnce(p, FinishOp(p, FinishOp(p, passed, 0), 1), 2);
    FinishOnce(p, FinishThree(p, passed), 3);
  }

  lemma NextOfThree(s: State)
    requires |s.tables| == 3
    ensures SomethingStarted(s) ==>
              && (exists j: nat :: j < 3 && s.tables[j].entry.IsStarted() && s.tables[j].entry.end == Advance(s).time)
              && (forall j: nat :: j < 3 && s.tables[j].entry.IsStarted() ==> Advance(s).time <= s.tables[j].entry.end)
  {
    TimeAdvance(s);
  }

  // ----- The flood -----

  /** Both models answer cycle 2. */
  const ANSWER := [Ends(2), Ends(2), Ends(2)]

  function Snapshot(opMap: Tally, valueMap: Tally, ex: Tally, control: seq<Ref>,
                    host: LauncherTable, one: LauncherTable, two: LauncherTable): State
  {
    State(1, opMap, valueMap, ex, control, [host, one, two])
  }

  const HOST_DONE := LauncherTable(Idle, At(0, 4), [])

  /** After the first round. */
  const LAUNCHED := Snapshot(map[START := 1, FIRST := 1], map[START := 1], map[], [],
    HOST_DONE, LauncherTable(Idle, At(1, 0), [SECOND]), LauncherTable(Idle, NoBlock, []))

  const LOOPING := LAUNCHED.(tables :=
    [HOST_DONE, LauncherTable(Idle, At(2, 0), [SECOND]), LauncherTable(Idle, NoBlock, [])])

  /** The fetch loop takes one operation, and goes on unless the launcher is busy with it. */
  lemma FetchOne(p: Program, s: State, i: nat, t: State)
    requires Valid(p) && Typed(p, s) && i < |s.tables| && CanFetch(p, s, i) && FetchOp(p, s, i) == t
    ensures Typed(p, t) && |t.tables| == |s.tables|
    ensures SetOpEntry(p, s, i) == if t.tables[i].entry.Busy? then t else SetOpEntry(p, t, i)
  {
    FetchUnfolds(p, s, i);
  }

  lemma HostFetches(s: State, next: nat, one: LauncherTable, control: seq<Ref>) returns (t: State)
    requires Valid(FLOOD) && Typed(FLOOD, s) && next < 4
    requires s == Snapshot(map[], map[], map[], control, LauncherTable(Idle, At(0, next), []),
                           one, LauncherTable(Idle, NoBlock, []))
    requires |one.queue| < 5
    ensures t == Snapshot(map[], map[], map[], if next == 0 then control + [START] else control,
                          if next == 3 then LauncherTable(Busy(Ref(0, 3), 0, 0), At(0, 4), [])
                          else LauncherTable(Idle, At(0, next + 1), []),
                          if 1 <= next <= 2 then one.(queue := one.queue + [Ref(0, next)]) else one,
                          LauncherTable(Idle, NoBlock, []))
    ensures Typed(FLOOD, t) && SetOpEntry(FLOOD, s, 0) == if next == 3 then t else SetOpEntry(FLOOD, t, 0)
  {
    t := FetchOp(FLOOD, s, 0);
    FetchOne(FLOOD, s, 0, t);
  }

  lemma FirstRoundFetches()
    ensures Valid(FLOOD)
    ensures SetOpEntry(FLOOD, Init(FLOOD), 0)
         == Snapshot(map[], map[], map[], [START],
                     LauncherTable(Busy(Ref(0, 3), 0, 0), At(0, 4), []),
                     LauncherTable(Idle, NoBlock, [FIRST, SECOND]), LauncherTable(Idle, NoBlock, []))
  {
    FloodValid();
    var idle := LauncherTable(Idle, NoBlock, []);
    assert Init(FLOOD).tables == [LauncherTable(Idle, At(0, 0), []), idle, idle];
    assert [] + [START] == [START] && [] + [FIRST] == [FIRST] && [FIRST] + [SECOND] == [FIRST, SECOND];
    hide *;
    var s1 := HostFetches(Init(FLOOD), 0, idle, []);
    var s2 := HostFetches(s1, 1, idle, [START]);
    var s3 := HostFetches(s2, 2, LauncherTable(Idle, NoBlock, [FIRST]), [START]);
    var s4 := HostFetches(s3, 3, LauncherTable(Idle, NoBlock, [FIRST, SECOND]), [START]);
  }

  // ----- The second half of a round, at time one -----

  /** Entries as they occur when the second half begins. */
  predicate Startable(e: OpEntry) {
    || e.Idle?
    || (e.Busy? && e.start == e.end == 0 && IsRef(FLOOD, e.op)
        && (OpAt(FLOOD, e.op).Return? ==> e.op.block == 0) && !OpAt(FLOOD, e.op).Control?)
    || e == Busy(SLOW, 1, 2)
  }

  /** The entry when the round is over: only the slow operation takes longer. */
  function Over(e: OpEntry): OpEntry {
    if e.Busy? && e.op == SLOW then Busy(SLOW, 1, 2) else Idle
  }

  function Counted(opMap: Tally, e: OpEntry): Tally {
    if e.Busy? && IsRef(FLOOD, e.op) && OpAt(FLOOD, e.op).Launch? then Bump(opMap, e.op) else opMap
  }

  function Started(e: OpEntry): OpEntry {
    if e.Idle? then e else Busy(e.op, 1, if e.op == SLOW then 2 else 1)
  }

  lemma OnlySlowIsPlain(r: Ref)
    requires IsRef(FLOOD, r)
    ensures OpAt(FLOOD, r).Plain? <==> r == SLOW
    ensures !OpAt(FLOOD, r).Await? && !OpAt(FLOOD, r).MemCopy?
  {
    assert r.block == 0 || r.block == 1 || r.block == 2 || r.block == 3 || r.block == 4;
  }

  lemma StartsOne(s: State, i: nat)
    requires Valid(FLOOD) && Typed(FLOOD, s) && i < 3 && s.time == 1 && Startable(s.tables[i].entry)
    ensures ScheduleOp(FLOOD, s, i, Ends(2))
         == s.(opMap := Counted(s.opMap, s.tables[i].entry),
               tables := s.tables[i := s.tables[i].(entry := Started(s.tables[i].entry))])
  {
    var l := s.tables[i];
    assert s.tables == s.tables[i := l.(entry := l.entry)];
    if l.entry.Busy? {
      OnlySlowIsPlain(l.entry.op);
    }
  }

  lemma FinishesOne(s: State, i: nat, e: OpEntry)
    requires Valid(FLOOD) && Typed(FLOOD, s) && i < 3 && s.time == 1
    requires Startable(e) && s.tables[i].entry == Started(e)
    ensures FinishOp(FLOOD, s, i) == s.(tables := s.tables[i := s.tables[i].(entry := Over(e))])
  {
    var l := s.tables[i];
    assert s.tables == s.tables[i := l.(entry := l.entry)];
    if l.entry.Busy? {
      OnlySlowIsPlain(l.entry.op);
    }
  }

  /** The state after the second half. */
  function AfterRound(s: State): State
    requires |s.tables| == 3
  {
    var a, b, c := s.tables[0], s.tables[1], s.tables[2];
    State(1, Counted(Counted(Counted(s.opMap, a.entry), b.entry), c.entry), s.valueMap, s.exTimes, s.controlQueue,
          [a.(entry := Over(a.entry)), b.(entry := Over(b.entry)), c.(entry := Over(c.entry))])
  }

  /** The state once every operation is started. */
  function StartedAll(s: State): State
    requires |s.tables| == 3
  {
    var a, b, c := s.tables[0], s.tables[1], s.tables[2];
    State(1, Counted(Counted(Counted(s.opMap, a.entry), b.entry), c.entry), s.valueMap, s.exTimes, s.controlQueue,
          [a.(entry := Started(a.entry)), b.(entry := Started(b.entry)), c.(entry := Started(c.entry))])
  }

  ghost predicate AllStartable(s: State) {
    && s.time == 1 && |s.tables| == 3
    && Startable(s.tables[0].entry) && Startable(s.tables[1].entry) && Startable(s.tables[2].entry)
    && s.tables[1].entry.Busy? && s.tables[1].entry.op != SLOW
  }

  lemma StartsThree(s: State)
    requires Valid(FLOOD) && Typed(FLOOD, s) && AllStartable(s)
    ensures StartThree(FLOOD, s, ANSWER) == StartedAll(s)
  {
    hide Valid, Typed, ScheduleOp;
    StartsOne(s, 0);
    var s1 := ScheduleOp(FLOOD, s, 0, Ends(2));
    StartsOne(s1, 1);
    StartsOne(ScheduleOp(FLOOD, s1, 1, Ends(2)), 2);
    hide Counted, Started, Startable;
  }

  lemma FinishesThree(s: State)
    requires Valid(FLOOD) && AllStartable(s) && Typed(FLOOD, StartedAll(s))
    ensures FinishThree(FLOOD, StartedAll(s)) == AfterRound(s)
  {
    var s0 := StartedAll(s);
    hide Valid, Typed, FinishOp, Counted, Started, Startable, Over;
    FinishesOne(s0, 0, s.tables[0].entry);
    var s1 := FinishOp(FLOOD, s0, 0);
    FinishesOne(s1, 1, s.tables[1].entry);
    FinishesOne(FinishOp(FLOOD, s1, 1), 2, s.tables[2].entry);
  }

  lemma EndsNow(s: State)
    requires AllStartable(s)
    ensures Advance(StartedAll(s)) == StartedAll(s)
  {
    var t := StartedAll(s);
    NextOfThree(t);
    assert t.tables[1].entry.IsStarted() && t.tables[1].entry.end == 1;
  }

  lemma SecondHalf(s: State)
    requires Valid(FLOOD) && Typed(FLOOD, s) && AllStartable(s)
    ensures Running(s) && Execute(FLOOD, s, ANSWER) == AfterRound(s)
  {
    assert s.tables[1].entry.Busy?;
    hide Valid, Typed, AllStartable, Execute;
    ExecuteThree(FLOOD, s, ANSWER);
    StartsThree(s);
    EndsNow(s);
    FinishesThree(s);
  }

  // ----- The rounds -----

  lemma FirstRound()
    ensures Valid(FLOOD)
    ensures Running(Prepare(FLOOD, Init(FLOOD))) && Execute(FLOOD, Prepare(FLOOD, Init(FLOOD)), ANSWER) == LAUNCHED
  {
    FloodValid();
    FirstRoundFetches();
    StartFires();
    FirstAdmitted();
    assert AllStartable(ADMITS) && AfterRound(ADMITS) == LAUNCHED;
    hide *;
    PrepareThree(FLOOD, Init(FLOOD), FETCHED, FETCHED, FETCHED);
    SecondHalf(ADMITS);
  }

  const RETURNING := LauncherTable(Busy(Ref(0, 3), 0, 0), At(0, 4), [])
  const FETCHED := Snapshot(map[], map[], map[], [START], RETURNING,
    LauncherTable(Idle, NoBlock, [FIRST, SECOND]), LauncherTable(Idle, NoBlock, []))
  const STARTED := FETCHED.(opMap := map[START := 1], valueMap := map[START := 1], controlQueue := [])
  const ADMITS := STARTED.(tables :=
    [RETURNING, LauncherTable(Busy(FIRST, 0, 0), At(1, 0), [SECOND]), LauncherTable(Idle, NoBlock, [])])

  lemma StartFires()
    requires Valid(FLOOD) && Typed(FLOOD, FETCHED)
    ensures SetOpEntry(FLOOD, FETCHED, 1) == SetOpEntry(FLOOD, FETCHED, 2) == FETCHED
    ensures CheckControlFrom(FLOOD, FETCHED, 0) == STARTED
  {
    FiringUnfolds(FLOOD, FETCHED, 0);
    var fired := FireOp(FLOOD, FETCHED, 0);
    assert [START][..0] + [START][1..] == [];
    assert fired == STARTED;
    FiringUnfolds(FLOOD, fired, 0);
  }

  lemma FirstAdmitted()
    requires Valid(FLOOD) && Typed(FLOOD, STARTED)
    ensures CheckEventQueue(FLOOD, STARTED, 0) == STARTED
    ensures CheckEventQueue(FLOOD, STARTED, 1) == ADMITS
    ensures Typed(FLOOD, ADMITS) && CheckEventQueue(FLOOD, ADMITS, 2) == ADMITS
  {
    FloodValid();
    assert !Blocked(FLOOD, STARTED, FIRST);
    assert [FIRST, SECOND][1..] == [SECOND];
    assert OpAt(FLOOD, FIRST) == Launch(1, START, 1);
    assert CheckEventQueue(FLOOD, STARTED, 1).tables == ADMITS.tables;
  }

  const ENTERED := LAUNCHED.(tables :=
    [HOST_DONE, LauncherTable(Busy(Ref(1, 0), 0, 0), At(2, 0), [SECOND]), LAUNCHED.tables[2]])

  lemma LoopEntered()
    requires Valid(FLOOD) && Typed(FLOOD, LAUNCHED)
    ensures Typed(FLOOD, ENTERED) && SetOpEntry(FLOOD, LAUNCHED, 1) == ENTERED
    ensures CheckEventQueue(FLOOD, ENTERED, 1) == ENTERED
  {
    FetchOne(FLOOD, LAUNCHED, 1, FetchOp(FLOOD, LAUNCHED, 1));
    assert FetchOp(FLOOD, LAUNCHED, 1).tables == ENTERED.tables;
  }

  lemma SecondRound()
    ensures Valid(FLOOD) && Typed(FLOOD, LAUNCHED)
    ensures Running(Prepare(FLOOD, LAUNCHED)) && Execute(FLOOD, Prepare(FLOOD, LAUNCHED), ANSWER) == LOOPING
  {
    FirstRound();
    FloodValid();
    LoopEntered();
    hide Valid, Typed, Prepare, Execute, BlockExs, Parent;
    PrepareThree(FLOOD, LAUNCHED, LAUNCHED, ENTERED, ENTERED);
    SecondHalf(ENTERED);
  }

  /** The loop has run n times in full, and its launches have gone to processor 2. */
  function Turning(opMap: Tally, n: nat, two: LauncherTable): State {
    Snapshot(opMap, map[START := 1], if n == 0 then map[] else map[AGAIN := n], [],
             HOST_DONE, LauncherTable(Idle, At(2, 0), [SECOND]), two)
  }

  function Sent(two: LauncherTable): LauncherTable {
    two.(queue := two.queue + [EVENT])
  }

  /** The same while the launcher works on the next yield. */
  function Turned(opMap: Tally, n: nat, two: LauncherTable): State {
    Turning(opMap, n + 1, two).(tables := [HOST_DONE, LauncherTable(Busy(AGAIN, 0, 0), At(2, 0), [SECOND]), two])
  }

  /** One more turn of the loop fetches a launch and a yield. */
  lemma Turns(opMap: Tally, n: nat, two: LauncherTable)
    requires Valid(FLOOD) && Typed(FLOOD, Turning(opMap, n, two))
    requires n + 1 < 30000 && |two.queue| < EVENT_QUEUE_SIZE
    ensures SetOpEntry(FLOOD, Turning(opMap, n, two), 1) == Turned(opMap, n, Sent(two))
  {
    FloodValid();
    var s := Turning(opMap, n, two);
    var s1 := FetchOp(FLOOD, s, 1);
    FetchOne(FLOOD, s, 1, s1);
    assert s1.tables == [HOST_DONE, LauncherTable(Idle, At(2, 1), [SECOND]), Sent(two)];
    var s2 := FetchOp(FLOOD, s1, 1);
    FetchOne(FLOOD, s1, 1, s2);
    assert s2.tables == [HOST_DONE, LauncherTable(Busy(AGAIN, 0, 0), At(2, 0), [SECOND]), Sent(two)];
  }

  lemma HostIsDone(s: State)
    requires Valid(FLOOD) && Typed(FLOOD, s) && s.tables[0] == HOST_DONE
    ensures SetOpEntry(FLOOD, s, 0) == s && CheckEventQueue(FLOOD, s, 0) == s
  {
  }

  /** A round in which the loop turns and processor 2 goes from `two` to `ready`. */
  lemma TurningRound(opMap: Tally, n: nat, two: LauncherTable, c: State, ready: LauncherTable)
    requires Valid(FLOOD) && Typed(FLOOD, Turning(opMap, n, two))
    requires n + 1 < 30000 && |two.queue| < EVENT_QUEUE_SIZE && Startable(ready.entry)
    requires var b := Turned(opMap, n, Sent(two));
             Typed(FLOOD, b) ==>
               && SetOpEntry(FLOOD, b, 2) == c
               && c.controlQueue == [] && c.tables[0] == HOST_DONE && c.tables[1] == b.tables[1]
               && Typed(FLOOD, c) && CheckEventQueue(FLOOD, c, 2) == Turned(opMap, n, ready)
    ensures var s := Turning(opMap, n, two);
            && Running(Prepare(FLOOD, s))
            && Execute(FLOOD, Prepare(FLOOD, s), ANSWER) == AfterRound(Turned(opMap, n, ready))
  {
    var s := Turning(opMap, n, two);
    Turns(opMap, n, two);
    HostIsDone(s);
    HostIsDone(c);
    assert CheckEventQueue(FLOOD, c, 1) == c;
    PrepareThree(FLOOD, s, s, Turned(opMap, n, Sent(two)), c);
    FiringUnfolds(FLOOD, c, 0);
    SecondHalf(Turned(opMap, n, ready));
  }

  const OPENED: Tally := map[START := 1, FIRST := 1]
  const ALL: Tally := map[START := 1, FIRST := 1, EVENT := 1]

  lemma AfterTurning(opMap: Tally, n: nat, ready: LauncherTable)
    ensures AfterRound(Turned(opMap, n, ready))
         == Turning(Counted(opMap, ready.entry), n + 1, ready.(entry := Over(ready.entry)))
  {
  }

  const READY := LauncherTable(Idle, At(3, 0), [])
  const UNUSED := LauncherTable(Idle, NoBlock, [])
  const ADMITTED := LauncherTable(Busy(EVENT, 0, 0), At(3, 0), [])

  lemma EventReady(c: State)
    requires Valid(FLOOD) && Typed(FLOOD, c) && c.opMap == OPENED && c.valueMap == map[START := 1]
    ensures !Blocked(FLOOD, c, EVENT)
  {
    FloodValid();
  }

  lemma FirstEventAdmitted(c: State)
    requires Valid(FLOOD) && Typed(FLOOD, c) && c == Turned(OPENED, 0, Sent(UNUSED))
    ensures SetOpEntry(FLOOD, c, 2) == c && CheckEventQueue(FLOOD, c, 2) == Turned(OPENED, 0, ADMITTED)
  {
    assert Sent(UNUSED).queue == [EVENT] && [EVENT][1..] == [];
    EventReady(c);
    assert CanAdmit(FLOOD, c, 2);
    assert OpAt(FLOOD, EVENT) == Launch(2, START, 3);
    assert AdmitOp(FLOOD, c, 2).tables == Turned(OPENED, 0, ADMITTED).tables;
  }

  lemma FirstTurn()
    ensures LOOPING == Turning(OPENED, 0, UNUSED)
    ensures Startable(ADMITTED.entry) && |UNUSED.queue| < EVENT_QUEUE_SIZE
    ensures AfterRound(Turned(OPENED, 0, ADMITTED)) == Turning(ALL, 1, READY)
    ensures Turned(OPENED, 0, Sent(UNUSED)).controlQueue == [] && Turned(OPENED, 0, Sent(UNUSED)).tables[0] == HOST_DONE
  {
    assert Counted(OPENED, ADMITTED.entry) == ALL;
  }

  lemma ThirdRound()
    ensures Valid(FLOOD) && Typed(FLOOD, LOOPING)
    ensures Running(Prepare(FLOOD, LOOPING))
    ensures Execute(FLOOD, Prepare(FLOOD, LOOPING), ANSWER) == Turning(ALL, 1, READY)
  {
    hide *;
    FirstTurn();
    SecondRound();
    var c := Turned(OPENED, 0, Sent(UNUSED));
    if Typed(FLOOD, c) {
      FirstEventAdmitted(c);
    }
    TurningRound(OPENED, 0, UNUSED, c, ADMITTED);
  }

  function Copies(k: nat): (q: seq<Ref>)
    ensures |q| == k
  {
    seq(k, i => EVENT)
  }

  /** Processor 2 is busy with its first event, and k more are waiting. */
  function Flooded(k: nat): State {
    Turning(ALL, k + 1, LauncherTable(Busy(SLOW, 1, 2), At(3, 1), Copies(k)))
  }

  const SLOWED := LauncherTable(Busy(SLOW, 0, 0), At(3, 1), [EVENT])

  lemma SlowFetched(b: State)
    requires Valid(FLOOD) && Typed(FLOOD, b) && b == Turned(ALL, 1, Sent(READY))
    ensures Typed(FLOOD, Turned(ALL, 1, SLOWED)) && SetOpEntry(FLOOD, b, 2) == Turned(ALL, 1, SLOWED)
    ensures CheckEventQueue(FLOOD, Turned(ALL, 1, SLOWED), 2) == Turned(ALL, 1, SLOWED)
  {
    FloodValid();
    assert Sent(READY).queue == [EVENT];
    FetchOne(FLOOD, b, 2, FetchOp(FLOOD, b, 2));
    assert FetchOp(FLOOD, b, 2).tables == Turned(ALL, 1, SLOWED).tables;
  }

  lemma FloodBegins()
    ensures Startable(SLOWED.entry) && |READY.queue| < EVENT_QUEUE_SIZE
    ensures AfterRound(Turned(ALL, 1, SLOWED)) == Flooded(1)
    ensures Turned(ALL, 1, SLOWED).controlQueue == [] && Turned(ALL, 1, SLOWED).tables[0] == HOST_DONE
    ensures Turned(ALL, 1, SLOWED).tables[1] == Turned(ALL, 1, Sent(READY)).tables[1]
  {
    assert Copies(1) == [EVENT];
    assert Counted(ALL, SLOWED.entry) == ALL;
  }

  lemma FourthRound()
    ensures var s := Turning(ALL, 1, READY);
            && Valid(FLOOD) && Typed(FLOOD, s)
            && Running(Prepare(FLOOD, s)) && Execute(FLOOD, Prepare(FLOOD, s), ANSWER) == Flooded(1)
  {
    hide *;
    FloodBegins();
    ThirdRound();
    if Typed(FLOOD, Turned(ALL, 1, Sent(READY))) {
      SlowFetched(Turned(ALL, 1, Sent(READY)));
    }
    TurningRound(ALL, 1, READY, Turned(ALL, 1, SLOWED), SLOWED);
  }

  lemma FloodRises(k: nat)
    requires Valid(FLOOD) && Typed(FLOOD, Flooded(k)) && k < EVENT_QUEUE_SIZE
    ensures Running(Prepare(FLOOD, Flooded(k)))
    ensures Execute(FLOOD, Prepare(FLOOD, Flooded(k)), ANSWER) == Flooded(k + 1)
  {
    var two := LauncherTable(Busy(SLOW, 1, 2), At(3, 1), Copies(k));
    assert Copies(k) + [EVENT] == Copies(k + 1);
    hide Valid, Prepare, Execute, Turning;
    TurningRound(ALL, k + 1, two, Turned(ALL, k + 1, Sent(two)), Sent(two));
    AfterTurning(ALL, k + 1, Sent(two));
  }

  /** When the queue is full, the loop cannot go on and its launcher is idle, so the second
      launch is admitted in its place. */
  lemma FloodSpills()
    requires Valid(FLOOD) && Typed(FLOOD, Flooded(EVENT_QUEUE_SIZE))
    ensures var s := Flooded(EVENT_QUEUE_SIZE);
            && Fired(FLOOD, s) == s
            && CanAdmit(FLOOD, s, 1) && !AtEnd(FLOOD, s.tables[1])
            && Prepare(FLOOD, s).tables[1].cursor == At(4, 0)
            && Prepare(FLOOD, s).exTimes == s.exTimes
  {
    FloodValid();
    var s := Flooded(EVENT_QUEUE_SIZE);
    PrepareThree(FLOOD, s, s, s, s);
    assert !Blocked(FLOOD, s, SECOND);
  }

  /** What a simulation does after one round, it does. */
  lemma OneRound(s: State, t: State, answers: seq<seq<Answer>>)
    requires Valid(FLOOD) && Typed(FLOOD, s) && TypedAnswers(FLOOD, answers)
    requires answers != [] && answers[0] == ANSWER
    requires Running(Prepare(FLOOD, s)) && Execute(FLOOD, Prepare(FLOOD, s), ANSWER) == t
    ensures Typed(FLOOD, t) && TypedAnswers(FLOOD, answers[1..])
    ensures NeverCutOff(FLOOD, s, answers) ==> NeverCutOff(FLOOD, t, answers[1..])
    ensures Simulate(FLOOD, s, answers) == Simulate(FLOOD, t, answers[1..])
  {
  }

  /** Whatever the depth of the flood, enough further rounds cut the loop off. */
  lemma {:induction false} FloodCutsOff(k: nat, answers: seq<seq<Answer>>)
    requires Valid(FLOOD) && Typed(FLOOD, Flooded(k)) && k <= EVENT_QUEUE_SIZE
    requires |answers| == EVENT_QUEUE_SIZE - k && forall i :: 0 <= i < |answers| ==> answers[i] == ANSWER
    requires TypedAnswers(FLOOD, answers)
    ensures !NeverCutOff(FLOOD, Flooded(k), answers)
    ensures var t := Simulate(FLOOD, Flooded(k), answers);
            t.tables[1].cursor == At(4, 0) && Count(t.exTimes, AGAIN) == EVENT_QUEUE_SIZE + 1
    decreases EVENT_QUEUE_SIZE - k
  {
    hide *;
    if k == EVENT_QUEUE_SIZE {
      FloodOverflows(answers);
    } else {
      FloodRises(k);
      OneRound(Flooded(k), Flooded(k + 1), answers);
      FloodCutsOff(k + 1, answers[1..]);
    }
  }

  lemma FloodOverflows(answers: seq<seq<Answer>>)
    requires Valid(FLOOD) && Typed(FLOOD, Flooded(EVENT_QUEUE_SIZE)) && answers == []
    ensures TypedAnswers(FLOOD, answers) && !NeverCutOff(FLOOD, Flooded(EVENT_QUEUE_SIZE), answers)
    ensures var t := Simulate(FLOOD, Flooded(EVENT_QUEUE_SIZE), answers);
            t.tables[1].cursor == At(4, 0) && Count(t.exTimes, AGAIN) == EVENT_QUEUE_SIZE + 1
  {
    FloodSpills();
    var s := Flooded(EVENT_QUEUE_SIZE);
    assert !AdmitsAtEnd(FLOOD, Fired(FLOOD, s), 0);
    assert Simulate(FLOOD, s, answers) == Prepare(FLOOD, s);
    assert Count(s.exTimes, AGAIN) == EVENT_QUEUE_SIZE + 1;
    hide Prepare;
  }

  function Answers(n: nat): (answers: seq<seq<Answer>>)
    ensures |answers| == n && forall i :: 0 <= i < n ==> answers[i] == ANSWER
  {
    seq(n, i => ANSWER)
  }

  /** The program is valid and its launches are well ordered, yet a simulation of it cuts off
      its loop: it ends with the first processor in the second body, after 20001 of 30000
      iterations of the first. */
  lemma FullQueueCutsOff()
    ensures Valid(FLOOD)
    ensures var answers := Answers(EVENT_QUEUE_SIZE + 3);
            && TypedAnswers(FLOOD, answers)
            && !NeverCutOff(FLOOD, Init(FLOOD), answers)
            && var t := Simulate(FLOOD, Init(FLOOD), answers);
               t.tables[1].cursor == At(4, 0) && Count(t.exTimes, AGAIN) == EVENT_QUEUE_SIZE + 1 < Trips(FLOOD, 2)
  {
    var n := EVENT_QUEUE_SIZE + 3;
    assert EVENT_QUEUE_SIZE == 20000 && n == 20003;
    hide *;
    FloodValid();
    FirstRound();
    SecondRound();
    ThirdRound();
    FourthRound();
    AnswersDrop(n);
    OneRound(Init(FLOOD), LAUNCHED, Answers(n));
    OneRound(LAUNCHED, LOOPING, Answers(n - 1));
    OneRound(LOOPING, Turning(ALL, 1, READY), Answers(n - 2));
    OneRound(Turning(ALL, 1, READY), Flooded(1), Answers(n - 3));
    FloodCutsOff(1, Answers(n - 4));
  }

  lemma AnswersDrop(n: nat)
    requires n >= 4
    ensures TypedAnswers(FLOOD, Answers(n))
    ensures Answers(n)[1..] == Answers(n - 1) && Answers(n - 1)[1..] == Answers(n - 2)
    ensures Answers(n - 2)[1..] == Answers(n - 3) && Answers(n - 3)[1..] == Answers(n - 4)
  {
  }
}
