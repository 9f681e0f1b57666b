/** Simulated time: what is booked, when it moves, and when it only moves forward. */
module Timing {
  import opened Programs
  import opened Simulator
  import opened Actions

  // ----- Moving to the next end -----

  lemma {:induction false} EndTimesAreEnds(tables: seq<LauncherTable>)
    ensures forall i: nat :: i < |tables| && tables[i].entry.IsStarted() ==> tables[i].entry.end in EndTimes(tables)
    ensures forall t :: t in EndTimes(tables) ==>
              exists i: nat :: i < |tables| && tables[i].entry.IsStarted() && tables[i].entry.end == t
  {
    if tables != [] {
      var n := |tables| - 1;
      EndTimesAreEnds(tables[..n]);
      forall t | t in EndTimes(tables)
        ensures exists i: nat :: i < |tables| && tables[i].entry.IsStarted() && tables[i].entry.end == t
      {
        if t in EndTimes(tables[..n]) {
          var i: nat :| i < n && tables[..n][i].entry.IsStarted() && tables[..n][i].entry.end == t;
          assert tables[i].entry.IsStarted();
        } else {
          assert tables[n].entry.IsStarted();
        }
      }
      forall i: nat | i < |tables| && tables[i].entry.IsStarted() ensures tables[i].entry.end in EndTimes(tables) {
        if i < n {
          assert tables[..n][i] == tables[i];
        }
      }
    }
  }

  ghost predicate SomethingStarted(s: State) {
    exists i: nat :: i < |s.tables| && s.tables[i].entry.IsStarted()
  }

  /** Time moves to the earliest booked end, so it skips none. */
  lemma TimeAdvance(s: State)
    ensures forall i: nat :: i < |s.tables| && s.tables[i].entry.IsStarted() ==> Advance(s).time <= s.tables[i].entry.end
    ensures SomethingStarted(s) ==>
              exists j: nat :: j < |s.tables| && s.tables[j].entry.IsStarted() && s.tables[j].entry.end == Advance(s).time
    ensures !SomethingStarted(s) ==> Advance(s).time == s.time + 1
  {
    EndTimesAreEnds(s.tables);
  }

  // ----- Runs in time -----

  predicate EntryOnTime(e: OpEntry, time: nat) {
    e.Busy? ==> (e.start == 0 && e.end == 0) || 1 <= e.start <= time <= e.end
  }

  /** Nothing that was started is overdue. */
  predicate TimeOk(s: State) {
    forall i: nat :: i < |s.tables| ==> EntryOnTime(s.tables[i].entry, s.time)
  }

  /** Nothing is started with an end that has passed. */
  predicate Prompt(s: State, a: Action) {
    a.Start? ==> s.time <= a.end
  }

  ghost predicate InTime(p: Program, s: State, acts: seq<Action>)
    requires Valid(p) && Typed(p, s)
    decreases acts
  {
    acts == [] || (Enabled(p, s, acts[0]) && Prompt(s, acts[0]) && InTime(p, Apply(p, s, acts[0]), acts[1..]))
  }

  lemma TimePass(s: State)
    requires TimeOk(s)
    ensures TimeOk(Advance(s)) && s.time <= Advance(s).time
  {
    var s' := Advance(s);
    TimeAdvance(s);
    hide NextTime;
    if SomethingStarted(s) {
      var j: nat :| j < |s.tables| && s.tables[j].entry.IsStarted() && s.tables[j].entry.end == s'.time;
      assert EntryOnTime(s.tables[j].entry, s.time);
    }
    forall i: nat | i < |s'.tables| ensures EntryOnTime(s'.tables[i].entry, s'.time) {
      assert EntryOnTime(s.tables[i].entry, s.time);
    }
  }

  lemma TimeApply(p: Program, s: State, a: Action)
    requires Valid(p) && Typed(p, s) && TimeOk(s) && Enabled(p, s, a) && Prompt(s, a)
    ensures TimeOk(Apply(p, s, a)) && s.time <= Apply(p, s, a).time
  {
    var s' := Apply(p, s, a);
    if a.Pass? {
      TimePass(s);
    } else {
      forall i: nat | i < |s'.tables| ensures EntryOnTime(s'.tables[i].entry, s'.time) {
        assert EntryOnTime(s.tables[i].entry, s.time);
        if a.Fetch? && a.launcher != i {
          FetchOtherCursor(p, s, a.launcher, i);
        }
      }
    }
  }

  /** Along a run in time nothing is ever overdue, and time never goes backwards. */
  lemma {:induction false} TimeReaches(p: Program, s: State, acts: seq<Action>, t: State)
    requires Valid(p) && Typed(p, s) && TimeOk(s) && Reaches(p, s, acts, t) && InTime(p, s, acts)
    ensures TimeOk(t) && s.time <= t.time
    decreases acts
  {
    if acts != [] {
      TimeApply(p, s, acts[0]);
      TimeReaches(p, Apply(p, s, acts[0]), acts[1..], t);
    }
  }

  lemma InTimeCons(p: Program, s: State, a: Action, acts: seq<Action>)
    requires Valid(p) && Typed(p, s) && Enabled(p, s, a) && Prompt(s, a) && InTime(p, Apply(p, s, a), acts)
    ensures InTime(p, s, [a] + acts)
  {
    assert ([a] + acts)[1..] == acts;
  }

  lemma FirstInTime(p: Program, s: State, acts: seq<Action>, t: State)
    requires Valid(p) && Typed(p, s) && Reaches(p, s, acts, t) && InTime(p, s, acts)
    ensures acts == [] ==> s == t
    ensures acts != [] ==>
              && Enabled(p, s, acts[0]) && Prompt(s, acts[0])
              && Typed(p, Apply(p, s, acts[0]))
              && Reaches(p, Apply(p, s, acts[0]), acts[1..], t) && InTime(p, Apply(p, s, acts[0]), acts[1..])
  {
  }

  lemma {:induction false} InTimeConcat(p: Program, s: State, a: seq<Action>, t: State, b: seq<Action>)
    requires Valid(p) && Typed(p, s) && Reaches(p, s, a, t) && Typed(p, t)
    requires InTime(p, s, a) && InTime(p, t, b)
    ensures InTime(p, s, a + b)
    decreases a
  {
    hide *;
    FirstInTime(p, s, a, t);
    if a == [] {
      assert a + b == b;
    } else {
      var s', rest := Apply(p, s, a[0]), a[1..];
      InTimeConcat(p, s', rest, t, b);
      InTimeCons(p, s, a[0], rest + b);
      assert a + b == [a[0]] + (rest + b);
    }
  }

  ghost predicate StartsNothing(acts: seq<Action>) {
    forall k :: 0 <= k < |acts| ==> !acts[k].Start?
  }

  lemma {:induction false} InTimeTrivially(p: Program, s: State, acts: seq<Action>, t: State)
    requires Valid(p) && Typed(p, s) && Reaches(p, s, acts, t) && StartsNothing(acts)
    ensures InTime(p, s, acts)
    decreases acts
  {
    if acts != [] {
      assert !acts[0].Start?;
      assert forall k :: 0 <= k < |acts[1..]| ==> acts[1..][k] == acts[k + 1];
      InTimeTrivially(p, Apply(p, s, acts[0]), acts[1..], t);
    }
  }

  // ----- Answers in time -----

  /** Only these operations end when a device model says so. */
  predicate AsksModel(op: Op) {
    op.Plain? || op.MemCopy?
  }

  /** The operation that launcher i may start now does not get an end that has passed. */
  predicate PromptAt(p: Program, s: State, i: nat, answer: Answer)
    requires Valid(p) && Typed(p, s) && i < |s.tables|
  {
    var e := s.tables[i].entry;
    e.Busy? && !e.IsStarted() && AsksModel(OpAt(p, e.op)) && answer.Ends? ==> s.time <= answer.at
  }

  /** No operation that is started in this round gets an end that has passed. */
  ghost predicate PromptRound(p: Program, s: State, answers: seq<Answer>)
    requires Valid(p) && Typed(p, s) && |answers| == |s.tables|
  {
    forall i: nat :: i < |s.tables| ==> PromptAt(p, s, i, answers[i])
  }

  /** In no round of the simulation, that is. */
  ghost predicate PromptRounds(p: Program, s: State, answers: seq<seq<Answer>>)
    requires Valid(p) && Typed(p, s) && TypedAnswers(p, answers)
    decreases answers
  {
    var ready := Prepare(p, s);
    Running(ready) && answers != [] ==>
      PromptRound(p, ready, answers[0]) && PromptRounds(p, Execute(p, ready, answers[0]), answers[1..])
  }

  /** Time never goes backwards between the rounds of the simulation. */
  ghost predicate Monotone(p: Program, s: State, answers: seq<seq<Answer>>)
    requires Valid(p) && Typed(p, s) && TypedAnswers(p, answers)
    decreases answers
  {
    var ready := Prepare(p, s);
    Running(ready) && answers != [] ==>
      ready.time <= Execute(p, ready, answers[0]).time && Monotone(p, Execute(p, ready, answers[0]), answers[1..])
  }

  // ----- What a round does to the entries -----

  /** Nothing that runs should have ended before now. */
  predicate NoneOverdue(s: State) {
    forall i: nat :: i < |s.tables| && s.tables[i].entry.IsStarted() ==> s.time <= s.tables[i].entry.end
  }

  /** Nothing was started since. */
  predicate NothingStarted(s: State, t: State) {
    && t.time == s.time && |t.tables| == |s.tables|
    && forall i: nat :: i < |t.tables| && t.tables[i].entry.IsStarted() ==> t.tables[i].entry == s.tables[i].entry
  }

  lemma {:induction false} FetchStartsNothing(p: Program, s: State, i: nat)
    requires Valid(p) && Typed(p, s) && i < |s.tables|
    ensures NothingStarted(s, SetOpEntry(p, s, i))
    decreases if s.tables[i].cursor.At? then Length(p, s.tables[i].cursor.block) - s.tables[i].cursor.next else 0
  {
    if CanFetch(p, s, i) {
      FetchTyped(p, s, i);
      var s' := FetchOp(p, s, i);
      forall j: nat | j < |s'.tables| && j != i ensures s'.tables[j].entry == s.tables[j].entry {
        FetchOtherCursor(p, s, i, j);
      }
      if s'.tables[i].entry.Idle? {
        FetchStartsNothing(p, s', i);
      }
    }
  }

  lemma {:induction false} FetchAllStartsNothing(p: Program, s: State, i: nat)
    requires Valid(p) && Typed(p, s) && i <= |s.tables|
    ensures NothingStarted(s, FetchAll(p, s, i))
    decreases |s.tables| - i
  {
    if i < |s.tables| {
      FetchStartsNothing(p, s, i);
      FetchAllStartsNothing(p, SetOpEntry(p, s, i), i + 1);
    }
  }

  lemma {:induction false} AdmitStartsNothing(p: Program, s: State, i: nat)
    requires Valid(p) && Typed(p, s) && 1 <= i <= |s.tables|
    ensures NothingStarted(s, AdmitFrom(p, s, i))
    decreases |s.controlQueue|, |s.tables| - i
  {
    if i < |s.tables| {
      var admitted := CheckEventQueue(p, s, i);
      var s' := CheckControlQueue(p, admitted);
      assert NothingStarted(s, s');
      CheckControlShrinks(p, admitted, 0);
      var next := if |s'.controlQueue| < |admitted.controlQueue| then 2 else i + 1;
      assert AdmitFrom(p, s, i) == AdmitFrom(p, s', next);
      hide Typed, CheckEventQueue, CheckControlQueue, CheckControlFrom, AdmitFrom;
      AdmitStartsNothing(p, s', next);
    }
  }

  lemma PrepareStartsNothing(p: Program, s: State)
    requires Valid(p) && Typed(p, s)
    ensures NothingStarted(s, Prepare(p, s))
  {
    FetchAllStartsNothing(p, s, 0);
    var fetched := FetchAll(p, s, 0);
    AdmitStartsNothing(p, CheckControlQueue(p, CheckEventQueue(p, fetched, 0)), 1);
  }

  /** An entry that was not started by now is started with the end its model gave, or not. */
  predicate ScheduledEntry(p: Program, e: OpEntry, time: Cycle, answer: Answer, e': OpEntry) {
    if e.Idle? || e.IsStarted() || !IsRef(p, e.op) then e' == e
    else
      var m := ModelOp(OpAt(p, e.op), time, answer);
      && (e' == e || (m.Ends? && e' == Busy(e.op, time, m.at)))
      && (AsksModel(OpAt(p, e.op)) && m.Ends? ==> e' != e)
  }

  lemma ScheduleOne(p: Program, s: State, i: nat, answer: Answer)
    requires Valid(p) && Typed(p, s) && i < |s.tables|
    ensures var t := ScheduleOp(p, s, i, answer);
            && (forall j: nat :: j < |s.tables| && j != i ==> t.tables[j] == s.tables[j])
            && ScheduledEntry(p, s.tables[i].entry, s.time, answer, t.tables[i].entry)
  {
    assert s.tables[i].entry.Busy? ==> IsRef(p, s.tables[i].entry.op);
  }

  lemma ScheduleOnce(p: Program, s: State, answers: seq<Answer>, i: nat)
    requires Valid(p) && Typed(p, s) && |answers| == |s.tables| && i <= |s.tables|
    ensures ScheduleAll(p, s, answers, i)
         == if i == |s.tables| then s else ScheduleAll(p, ScheduleOp(p, s, i, answers[i]), answers, i + 1)
  {
  }

  /** How starting changes the entries from launcher i on. */
  lemma {:induction false} ScheduleLeaves(p: Program, s: State, answers: seq<Answer>, i: nat)
    requires Valid(p) && Typed(p, s) && |answers| == |s.tables| && i <= |s.tables|
    ensures var t := ScheduleAll(p, s, answers, i);
            forall j: nat :: j < |s.tables| ==>
              if j < i then t.tables[j] == s.tables[j]
              else ScheduledEntry(p, s.tables[j].entry, s.time, answers[j], t.tables[j].entry)
    decreases |s.tables| - i
  {
    hide *;
    ScheduleOnce(p, s, answers, i);
    if i < |s.tables| {
      ScheduleOne(p, s, i, answers[i]);
      ScheduleLeaves(p, ScheduleOp(p, s, i, answers[i]), answers, i + 1);
    }
  }

  lemma FinishOnce(p: Program, s: State, i: nat)
    requires Valid(p) && Typed(p, s) && i <= |s.tables|
    ensures FinishAll(p, s, i) == if i == |s.tables| then s else FinishAll(p, FinishOp(p, s, i), i + 1)
    ensures i < |s.tables| ==>
              && FinishOp(p, s, i).time == s.time
              && FinishOp(p, s, i).tables == Finished(s, i, i + 1)
  {
  }

  /** The tables once launchers i to n have retired what is done. */
  function Finished(s: State, i: nat, n: nat): seq<LauncherTable>
    requires n <= |s.tables|
  {
    seq(|s.tables|, j requires 0 <= j < |s.tables| =>
      if i <= j < n && CanRetire(s, j) then s.tables[j].(entry := Idle) else s.tables[j])
  }

  lemma {:induction false} FinishLeaves(p: Program, s: State, i: nat)
    requires Valid(p) && Typed(p, s) && i <= |s.tables|
    ensures FinishAll(p, s, i).time == s.time && FinishAll(p, s, i).tables == Finished(s, i, |s.tables|)
    decreases |s.tables| - i
  {
    hide FinishAll, FinishOp, Typed, Valid;
    FinishOnce(p, s, i);
    if i < |s.tables| {
      FinishLeaves(p, FinishOp(p, s, i), i + 1);
    }
  }

  /** Moving time to the next end and retiring leaves nothing overdue and retires operations
      at exactly their ends, one at least if anything was started. */
  lemma PassAndFinish(p: Program, s: State)
    requires Valid(p) && Typed(p, s)
    ensures Typed(p, Advance(s))
    ensures var t := FinishAll(p, Advance(s), 0);
            && |t.tables| == |s.tables|
            && t.time == Advance(s).time
            && (forall i: nat :: i < |t.tables| && t.tables[i].entry.IsStarted() ==> t.time < t.tables[i].entry.end)
            && (forall i: nat :: i < |t.tables| && t.tables[i].entry != s.tables[i].entry ==>
                  t.tables[i].entry.Idle? && s.tables[i].entry.IsStarted() && s.tables[i].entry.end == t.time)
            && if SomethingStarted(s)
               then exists i: nat :: i < |t.tables| && s.tables[i].entry.IsStarted() && t.tables[i].entry.Idle?
               else t.time == s.time + 1
  {
    var passed := Advance(s);
    FinishLeaves(p, passed, 0);
    hide *;
    TimeAdvance(s);
    FinishedAtEnd(s, passed);
  }

  /** Retiring when the earliest end has come. */
  lemma FinishedAtEnd(s: State, passed: State)
    requires passed.tables == s.tables
    requires forall i: nat :: i < |s.tables| && s.tables[i].entry.IsStarted() ==> passed.time <= s.tables[i].entry.end
    requires SomethingStarted(s) ==>
               exists j: nat :: j < |s.tables| && s.tables[j].entry.IsStarted() && s.tables[j].entry.end == passed.time
    ensures var tables := Finished(passed, 0, |passed.tables|);
            && |tables| == |s.tables|
            && (forall i: nat :: i < |tables| && tables[i].entry.IsStarted() ==> passed.time < tables[i].entry.end)
            && (forall i: nat :: i < |tables| && tables[i].entry != s.tables[i].entry ==>
                  tables[i].entry.Idle? && s.tables[i].entry.IsStarted() && s.tables[i].entry.end == passed.time)
            && (SomethingStarted(s) ==>
                  exists i: nat :: i < |tables| && s.tables[i].entry.IsStarted() && tables[i].entry.Idle?)
  {
    if SomethingStarted(s) {
      var j: nat :| j < |s.tables| && s.tables[j].entry.IsStarted() && s.tables[j].entry.end == passed.time;
      assert Finished(passed, 0, |passed.tables|)[j].entry.Idle?;
    }
  }

  /** What a prompt entry may turn into, and what one that is not must turn into. */
  lemma PromptEntry(p: Program, s: State, answers: seq<Answer>, i: nat, e': OpEntry)
    requires Valid(p) && Typed(p, s) && NoneOverdue(s) && |answers| == |s.tables| && i < |s.tables|
    requires ScheduledEntry(p, s.tables[i].entry, s.time, answers[i], e')
    ensures if PromptAt(p, s, i, answers[i]) then e'.IsStarted() ==> s.time <= e'.end
            else e'.IsStarted() && e'.end < s.time
  {
    assert s.tables[i].entry.Busy? ==> IsRef(p, s.tables[i].entry.op);
  }

  /** After starting, the earliest end has passed exactly when some model said so. */
  lemma EndsNotPassed(p: Program, s: State, answers: seq<Answer>)
    requires Valid(p) && Typed(p, s) && NoneOverdue(s) && |answers| == |s.tables|
    ensures s.time <= Advance(ScheduleAll(p, s, answers, 0)).time <==> PromptRound(p, s, answers)
  {
    var started := ScheduleAll(p, s, answers, 0);
    ScheduleLeaves(p, s, answers, 0);
    TimeAdvance(started);
    hide Valid, Typed, ScheduleAll, Advance, ScheduledEntry, PromptAt, NoneOverdue;
    forall i: nat | i < |s.tables|
      ensures if PromptAt(p, s, i, answers[i])
              then started.tables[i].entry.IsStarted() ==> s.time <= started.tables[i].entry.end
              else started.tables[i].entry.IsStarted() && started.tables[i].entry.end < s.time
    {
      PromptEntry(p, s, answers, i, started.tables[i].entry);
    }
  }

  /** The second half of a round.  Whatever the models answer, operations retire at exactly
      their booked ends, nothing is left overdue, and either something retires or nothing was
      started and time is one later.  Time does not go backwards if and only if no model
      answers with an end that has passed. */
  lemma RoundProgress(p: Program, s: State, answers: seq<Answer>)
    requires Valid(p) && Typed(p, s) && NoneOverdue(s) && |answers| == |s.tables|
    ensures var started := ScheduleAll(p, s, answers, 0);
            var t := Execute(p, s, answers);
            && (s.time <= t.time <==> PromptRound(p, s, answers))
            && |t.tables| == |started.tables|
            && (forall i: nat :: i < |t.tables| && t.tables[i].entry.IsStarted() ==> t.time < t.tables[i].entry.end)
            && (forall i: nat :: i < |t.tables| && t.tables[i].entry != started.tables[i].entry ==>
                  && t.tables[i].entry.Idle?
                  && started.tables[i].entry.IsStarted() && started.tables[i].entry.end == t.time)
            && if SomethingStarted(started)
               then exists i: nat :: i < |t.tables| && started.tables[i].entry.IsStarted() && t.tables[i].entry.Idle?
               else t.time == s.time + 1
  {
    EndsNotPassed(p, s, answers);
    PassAndFinish(p, ScheduleAll(p, s, answers, 0));
  }

  /** Over a whole simulation, time never goes backwards if and only if no model ever answers
      with an end that has passed. */
  lemma {:induction false} TimeMonotone(p: Program, s: State, answers: seq<seq<Answer>>)
    requires Valid(p) && Typed(p, s) && NoneOverdue(s) && TypedAnswers(p, answers)
    ensures Monotone(p, s, answers) <==> PromptRounds(p, s, answers)
    decreases answers
  {
    var ready := Prepare(p, s);
    PrepareStartsNothing(p, s);
    if Running(ready) && answers != [] {
      RoundProgress(p, ready, answers[0]);
      TimeMonotone(p, Execute(p, ready, answers[0]), answers[1..]);
    }
  }
}
