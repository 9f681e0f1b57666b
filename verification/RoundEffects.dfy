/** What the phases of a round do to every launcher, and when the simulation stops. */
module RoundEffects {
  import opened Programs
  import opened Simulator
  import opened Effects
  import opened ControlFiring
  import opened Timing
  import opened Rounds

  // ----- Fetching -----

  /** The launchers from i on fetch in turn. */
  ghost predicate FetchesFrom(p: Program, s: State, i: nat, t: State)
    requires Valid(p) && Typed(p, s) && i <= |s.tables|
    decreases |s.tables| - i
  {
    if i == |s.tables| then t == s
    else exists mid: State {:trigger FetchEffect(p, s, i, mid)} ::
        && Typed(p, mid) && |mid.tables| == |s.tables|
        && FetchEffect(p, s, i, mid) && FetchesFrom(p, mid, i + 1, t)
  }

  lemma {:induction false} FetchAllEffect(p: Program, s: State, i: nat)
    requires Valid(p) && Typed(p, s) && i <= |s.tables|
    ensures FetchesFrom(p, s, i, FetchAll(p, s, i))
    decreases |s.tables| - i
  {
    FetchAllOnce(p, s, i);
    if i < |s.tables| {
      TablesKept(p, s, i);
      SetOpEntryEffect(p, s, i);
      FetchAllEffect(p, SetOpEntry(p, s, i), i + 1);
      hide Typed, SetOpEntry, FetchAll, FetchEffect, Valid;
    }
  }

  // ----- Starting -----

  /** The entry of launcher j is one that is started now, and counted. */
  predicate CountedStart(p: Program, s: State, answers: seq<Answer>, j: nat, o: Ref)
    requires Valid(p) && Typed(p, s) && |answers| == |s.tables| && j < |s.tables|
  {
    var e := s.tables[j].entry;
    && e.Busy? && e.op == o && StartedEntry(p, s, e, answers[j]) != e
    && (OpAt(p, o).Launch? || OpAt(p, o).MemCopy? || OpAt(p, o).Await?)
  }

  ghost predicate StartedFrom(p: Program, s: State, answers: seq<Answer>, i: nat, o: Ref)
    requires Valid(p) && Typed(p, s) && |answers| == |s.tables|
  {
    exists j: nat :: i <= j < |s.tables| && CountedStart(p, s, answers, j, o)
  }

  /** Every launcher from i on is asked once, with its own answer. */
  ghost predicate StartsFrom(p: Program, s: State, answers: seq<Answer>, i: nat, t: State)
    requires Valid(p) && Typed(p, s) && |answers| == |s.tables| && i <= |s.tables|
  {
    && t == s.(opMap := t.opMap, tables := t.tables) && |t.tables| == |s.tables|
    && (forall j: nat :: j < |s.tables| ==>
          t.tables[j] == if j < i then s.tables[j]
                         else s.tables[j].(entry := StartedEntry(p, s, s.tables[j].entry, answers[j])))
    && (forall o :: Count(t.opMap, o) == Count(s.opMap, o)
          + if StartedFrom(p, s, answers, i, o) then 1 else 0)
  }

  /** Starting one launcher's operation does not concern another launcher's. */
  lemma OthersStart(p: Program, s: State, i: nat, j: nat, answer: Answer, other: Answer)
    requires Valid(p) && Typed(p, s) && i < |s.tables| && j < |s.tables| && i != j
    ensures var s' := ScheduleOp(p, s, i, answer);
            && s'.tables[j] == s.tables[j]
            && StartedEntry(p, s', s.tables[j].entry, other) == StartedEntry(p, s, s.tables[j].entry, other)
  {
    ScheduleOpEffect(p, s, i, answer);
    var s' := ScheduleOp(p, s, i, answer);
    var e := s.tables[j].entry;
    assert TypedEntry(p, i, s.tables[i]) && TypedEntry(p, j, s.tables[j]);
    if e.Busy? && OpAt(p, e.op).Await? {
      assert Count(s'.opMap, e.op) == Count(s.opMap, e.op);
      assert forall g :: g in OpAt(p, e.op).signals && IsRef(p, g) ==> (Lacks(p, s', e.op, g) <==> Lacks(p, s, e.op, g));
    }
  }

  lemma OneMoreStarted(p: Program, s: State, answers: seq<Answer>, i: nat, t: State)
    requires Valid(p) && Typed(p, s) && |answers| == |s.tables| && i < |s.tables|
    requires StartsFrom(p, ScheduleOp(p, s, i, answers[i]), answers, i + 1, t)
    ensures StartsFrom(p, s, answers, i, t)
  {
    var s' := ScheduleOp(p, s, i, answers[i]);
    ScheduleOpEffect(p, s, i, answers[i]);
    forall j: nat | i < j < |s.tables|
      ensures s'.tables[j] == s.tables[j]
      ensures StartedEntry(p, s', s'.tables[j].entry, answers[j]) == StartedEntry(p, s, s.tables[j].entry, answers[j])
    {
      OthersStart(p, s, i, j, answers[i], answers[j]);
    }
    forall o ensures Count(t.opMap, o) == Count(s.opMap, o) + if StartedFrom(p, s, answers, i, o) then 1 else 0 {
      assert TypedEntry(p, i, s.tables[i]);
      forall j: nat | i < j < |s.tables|
        ensures CountedStart(p, s', answers, j, o) <==> CountedStart(p, s, answers, j, o)
        ensures CountedStart(p, s, answers, j, o) ==> !CountedStart(p, s, answers, i, o)
      {
        OthersStart(p, s, i, j, answers[i], answers[j]);
        assert TypedEntry(p, j, s.tables[j]);
      }
      assert StartedFrom(p, s, answers, i, o) <==>
        CountedStart(p, s, answers, i, o) || StartedFrom(p, s', answers, i + 1, o);
    }
  }

  lemma {:induction false} ScheduleAllEffect(p: Program, s: State, answers: seq<Answer>, i: nat)
    requires Valid(p) && Typed(p, s) && |answers| == |s.tables| && i <= |s.tables|
    ensures StartsFrom(p, s, answers, i, ScheduleAll(p, s, answers, i))
    decreases |s.tables| - i
  {
    ScheduleOnce(p, s, answers, i);
    if i < |s.tables| {
      hide *;
      ScheduleAllEffect(p, ScheduleOp(p, s, i, answers[i]), answers, i + 1);
      OneMoreStarted(p, s, answers, i, ScheduleAll(p, s, answers, i));
    }
  }

  // ----- Retiring -----

  predicate Over(s: State, j: nat)
    requires j < |s.tables|
  {
    InProgress(s.tables[j].entry) && s.tables[j].entry.end <= s.time
  }

  /** Launcher j retires an operation that produces the signal of o. */
  predicate Produces(p: Program, s: State, j: nat, o: Ref)
    requires Valid(p) && Typed(p, s) && j < |s.tables|
  {
    && Over(s, j)
    && var r := s.tables[j].entry.op;
       assert TypedEntry(p, j, s.tables[j]);
       || (OpAt(p, r).MemCopy? && o == r)
       || (OpAt(p, r).Return? && r.block > 0 && o == Parent(p, r.block))
  }

  ghost predicate ProducedFrom(p: Program, s: State, i: nat, o: Ref)
    requires Valid(p) && Typed(p, s)
  {
    exists j: nat :: i <= j < |s.tables| && Produces(p, s, j, o)
  }

  /** Every launcher from i on retires what is over. */
  ghost predicate RetiresFrom(p: Program, s: State, i: nat, t: State)
    requires Valid(p) && Typed(p, s) && i <= |s.tables|
  {
    && t == s.(valueMap := t.valueMap, tables := t.tables) && |t.tables| == |s.tables|
    && (forall j: nat :: j < |s.tables| ==>
          t.tables[j] == if i <= j && Over(s, j) then s.tables[j].(entry := Idle) else s.tables[j])
    && (forall o :: Count(t.valueMap, o) == Count(s.valueMap, o)
          + if ProducedFrom(p, s, i, o) then 1 else 0)
  }

  /** Only the launcher an event runs on can produce its signal. */
  lemma ProducedAtHome(p: Program, s: State, j: nat, o: Ref)
    requires Valid(p) && Typed(p, s) && j < |s.tables| && Produces(p, s, j, o)
    ensures IsRef(p, o) && OpAt(p, o).IsEvent() && OpAt(p, o).device == j
  {
    assert TypedEntry(p, j, s.tables[j]);
    var r := s.tables[j].entry.op;
    assert ValidOp(p, r) && ValidBlock(p, r.block);
  }

  /** Retiring one launcher's operation does not concern another launcher's. */
  lemma OthersRetire(p: Program, s: State, i: nat, j: nat, o: Ref)
    requires Valid(p) && Typed(p, s) && i < |s.tables| && j < |s.tables| && i != j
    ensures Produces(p, FinishOp(p, s, i), j, o) <==> Produces(p, s, j, o)
    ensures Produces(p, s, j, o) ==> !Produces(p, s, i, o)
  {
    FinishOpEffect(p, s, i);
    if Produces(p, s, j, o) && Produces(p, s, i, o) {
      ProducedAtHome(p, s, j, o);
      ProducedAtHome(p, s, i, o);
    }
  }

  /** The productions of one launcher and of those behind it. */
  lemma FirstAndLater(p: Program, s: State, i: nat, o: Ref)
    requires Valid(p) && Typed(p, s) && i < |s.tables|
    ensures var s' := FinishOp(p, s, i);
            && (ProducedFrom(p, s, i, o) <==> Produces(p, s, i, o) || ProducedFrom(p, s', i + 1, o))
            && !(Produces(p, s, i, o) && ProducedFrom(p, s', i + 1, o))
  {
    forall j: nat | i < j < |s.tables|
      ensures Produces(p, FinishOp(p, s, i), j, o) <==> Produces(p, s, j, o)
      ensures Produces(p, s, j, o) ==> !Produces(p, s, i, o)
    {
      OthersRetire(p, s, i, j, o);
    }
    hide Valid, Typed, FinishOp, Produces;
  }

  lemma OneMoreRetired(p: Program, s: State, i: nat, t: State)
    requires Valid(p) && Typed(p, s) && i < |s.tables| && RetiresFrom(p, FinishOp(p, s, i), i + 1, t)
    ensures RetiresFrom(p, s, i, t)
  {
    FinishOpEffect(p, s, i);
    assert TypedEntry(p, i, s.tables[i]);
    hide Valid, Typed, FinishOp;
    forall o ensures Count(t.valueMap, o) == Count(s.valueMap, o) + if ProducedFrom(p, s, i, o) then 1 else 0 {
      FirstAndLater(p, s, i, o);
      hide ProducedFrom;
    }
  }

  lemma {:induction false} FinishAllEffect(p: Program, s: State, i: nat)
    requires Valid(p) && Typed(p, s) && i <= |s.tables|
    ensures RetiresFrom(p, s, i, FinishAll(p, s, i))
    decreases |s.tables| - i
  {
    FinishOnce(p, s, i);
    if i < |s.tables| {
      hide *;
      FinishAllEffect(p, FinishOp(p, s, i), i + 1);
      OneMoreRetired(p, s, i, FinishAll(p, s, i));
    }
  }

  // ----- Rounds and the end -----

  lemma AdvanceEffect(s: State)
    ensures TimeEffect(s, Advance(s))
  {
    TimeAdvance(s);
    if i: nat :| i < |s.tables| && InProgress(s.tables[i].entry) {
      assert s.tables[i].entry.IsStarted();
    }
  }

  /** The first half of a round: all launchers fetch in turn; control operations fire; every
      launcher admits an event if it can. */
  lemma PrepareEffect(p: Program, s: State) returns (fetched: State, fired: State)
    requires Valid(p) && Typed(p, s)
    ensures Typed(p, fetched) && Typed(p, fired) && FetchesFrom(p, s, 0, fetched) && ControlEffect(p, fetched, fired)
    ensures var ready := Prepare(p, s);
            && ready == fired.(tables := ready.tables) && |ready.tables| == |fired.tables|
            && forall i: nat :: i < |fired.tables| ==> ready.tables[i] == AdmittedTable(p, fired, i)
  {
    fetched := FetchAll(p, s, 0);
    fired := CheckControlQueue(p, fetched);
    assert Prepare(p, s) == AdmitAll(p, fetched);
    hide *;
    FetchAllEffect(p, s, 0);
    AdmitAllEffect(p, fetched);
  }

  /** The second half: all launchers are asked to start; time moves on; what is over retires. */
  lemma ExecuteEffect(p: Program, s: State, answers: seq<Answer>) returns (started: State, passed: State)
    requires Valid(p) && Typed(p, s) && |answers| == |s.tables|
    ensures Typed(p, started) && Typed(p, passed)
    ensures StartsFrom(p, s, answers, 0, started) && TimeEffect(started, passed)
    ensures RetiresFrom(p, passed, 0, Execute(p, s, answers))
  {
    started := ScheduleAll(p, s, answers, 0);
    passed := Advance(started);
    assert Typed(p, passed) && |passed.tables| == |started.tables|;
    hide *;
    ScheduleAllEffect(p, s, answers, 0);
    AdvanceEffect(started);
    FinishAllEffect(p, passed, 0);
    ExecuteUnfolds(p, s, answers);
  }

  /** The simulation stops in the first round in which no launcher has an operation to work
      on, whatever would be answered next ... */
  lemma StopsWhenIdle(p: Program, s: State, answers: seq<seq<Answer>>)
    requires Valid(p) && Typed(p, s) && TypedAnswers(p, answers)
    requires AllIdle(Prepare(p, s))
    ensures Simulate(p, s, answers) == Prepare(p, s)
  {
  }

  /** ... and goes on, with the answers of this round, as long as some launcher does. */
  lemma GoesOnWhenBusy(p: Program, s: State, answers: seq<seq<Answer>>, i: nat)
    requires Valid(p) && Typed(p, s) && TypedAnswers(p, answers) && answers != []
    requires i < |Prepare(p, s).tables| && Prepare(p, s).tables[i].entry.Busy?
    ensures Simulate(p, s, answers) == Simulate(p, Execute(p, Prepare(p, s), answers[0]), answers[1..])
  {
  }

  /** A simulation with nothing more to be answered is at the state it prepared. */
  lemma StopsWithoutAnswers(p: Program, s: State)
    requires Valid(p) && Typed(p, s)
    ensures Simulate(p, s, []) == Prepare(p, s)
  {
  }

  /** The state at the start of round n. */
  ghost function AfterRounds(p: Program, s: State, answers: seq<seq<Answer>>, n: nat): (t: State)
    requires Valid(p) && Typed(p, s) && TypedAnswers(p, answers) && n <= |answers|
    ensures Typed(p, t)
    decreases answers
  {
    if n == 0 then s else AfterRounds(p, Execute(p, Prepare(p, s), answers[0]), answers[1..], n - 1)
  }

  lemma NoRounds(p: Program, s: State, answers: seq<seq<Answer>>)
    requires Valid(p) && Typed(p, s) && TypedAnswers(p, answers)
    ensures AfterRounds(p, s, answers, 0) == s
  {
  }

  lemma OneRound(p: Program, s: State, answers: seq<seq<Answer>>)
    requires Valid(p) && Typed(p, s) && TypedAnswers(p, answers) && answers != []
    ensures |answers[0]| == |Prepare(p, s).tables| && TypedAnswers(p, answers[1..])
  {
  }

  lemma LaterRounds(p: Program, s: State, answers: seq<seq<Answer>>, n: nat)
    requires Valid(p) && Typed(p, s) && TypedAnswers(p, answers) && n < |answers|
    requires |answers[0]| == |Prepare(p, s).tables| && TypedAnswers(p, answers[1..])
    ensures AfterRounds(p, s, answers, n + 1)
         == AfterRounds(p, Execute(p, Prepare(p, s), answers[0]), answers[1..], n)
  {
    hide Prepare, Execute, TypedAnswers;
  }

  ghost predicate EndsInRound(p: Program, s: State, answers: seq<seq<Answer>>, n: nat)
    requires Valid(p) && Typed(p, s) && TypedAnswers(p, answers)
  {
    && n <= |answers| && Simulate(p, s, answers) == Prepare(p, AfterRounds(p, s, answers, n))
    && (n < |answers| ==> AllIdle(Prepare(p, AfterRounds(p, s, answers, n))))
    && forall m: nat :: m < n ==> !AllIdle(Prepare(p, AfterRounds(p, s, answers, m)))
  }

  lemma EndsAtOnce(p: Program, s: State, answers: seq<seq<Answer>>)
    requires Valid(p) && Typed(p, s) && TypedAnswers(p, answers)
    requires AllIdle(Prepare(p, s)) || answers == []
    ensures EndsInRound(p, s, answers, 0)
  {
    NoRounds(p, s, answers);
    hide Simulate, Prepare, AfterRounds, Typed;
    if answers == [] {
      StopsWithoutAnswers(p, s);
    } else {
      StopsWhenIdle(p, s, answers);
    }
  }

  lemma EndsLater(p: Program, s: State, answers: seq<seq<Answer>>, n: nat)
    requires Valid(p) && Typed(p, s) && TypedAnswers(p, answers) && answers != [] && !AllIdle(Prepare(p, s))
    requires |answers[0]| == |Prepare(p, s).tables| && TypedAnswers(p, answers[1..])
    requires EndsInRound(p, Execute(p, Prepare(p, s), answers[0]), answers[1..], n)
    ensures EndsInRound(p, s, answers, n + 1)
  {
    var i: nat :| i < |Prepare(p, s).tables| && Prepare(p, s).tables[i].entry.Busy?;
    GoesOnWhenBusy(p, s, answers, i);
    NoRounds(p, s, answers);
    LaterRounds(p, s, answers, n);
    hide Simulate, Prepare, Execute, AfterRounds, Typed, AllIdle;
    forall m: nat | m < n + 1 ensures !AllIdle(Prepare(p, AfterRounds(p, s, answers, m))) {
      if m > 0 {
        LaterRounds(p, s, answers, m - 1);
      }
    }
  }

  /** A simulation ends in the first round that finds all launchers idle, or in the one for
      which there is no answer any more. */
  lemma {:induction false} StopsAtFirstIdle(p: Program, s: State, answers: seq<seq<Answer>>) returns (n: nat)
    requires Valid(p) && Typed(p, s) && TypedAnswers(p, answers)
    ensures EndsInRound(p, s, answers, n)
    decreases answers
  {
    if AllIdle(Prepare(p, s)) || answers == [] {
      n := 0;
      EndsAtOnce(p, s, answers);
    } else {
      OneRound(p, s, answers);
      hide *;
      n := StopsAtFirstIdle(p, Execute(p, Prepare(p, s), answers[0]), answers[1..]);
      EndsLater(p, s, answers, n);
      n := n + 1;
    }
  }
}
