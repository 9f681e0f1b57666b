/** The simulator's own schedule, round by round, is one of the action sequences. */
module Rounds {
  import opened Programs
  import opened Simulator
  import opened Actions
  import opened Invariants
  import opened Bounds
  import opened ControlFiring
  import opened Timing

  /** No launcher can fetch: each works on something, is at the end of its body, or is about
      to send an event to a full queue. */
  ghost predicate Exhausted(p: Program, s: State)
    requires Valid(p) && Typed(p, s)
  {
    forall i: nat :: i < |s.tables| ==> !CanFetch(p, s, i)
  }

  // ----- Fetching -----

  /** Others neither lose their place, nor does a full queue change. */
  predicate OthersKept(s: State, s': State, i: nat) {
    && |s'.tables| == |s.tables|
    && (forall j: nat :: j < |s.tables| && j != i ==>
          s'.tables[j].entry == s.tables[j].entry && s'.tables[j].cursor == s.tables[j].cursor)
    && (forall j: nat :: j < |s.tables| && |s.tables[j].queue| == EVENT_QUEUE_SIZE ==>
          s'.tables[j].queue == s.tables[j].queue)
  }

  lemma OthersKeptTwice(s: State, s': State, t: State, i: nat)
    requires OthersKept(s, s', i) && OthersKept(s', t, i)
    ensures OthersKept(s, t, i)
  {
  }

  lemma FetchKeepsOthers(p: Program, s: State, i: nat)
    requires Valid(p) && Typed(p, s) && i < |s.tables| && CanFetch(p, s, i)
    ensures OthersKept(s, FetchOp(p, s, i), i)
  {
    assert ValidOp(p, NextRef(s.tables[i]));
    forall j: nat | j < |s.tables| && j != i
      ensures FetchOp(p, s, i).tables[j].entry == s.tables[j].entry
      ensures FetchOp(p, s, i).tables[j].cursor == s.tables[j].cursor
    {
      FetchOtherCursor(p, s, i, j);
    }
  }

  lemma StaysUnable(p: Program, s: State, s': State, i: nat, j: nat)
    requires Valid(p) && Typed(p, s) && Typed(p, s') && OthersKept(s, s', i)
    requires j < |s.tables| && j != i && !CanFetch(p, s, j)
    ensures !CanFetch(p, s', j)
  {
    if HasNext(p, s.tables[j]) {
      assert ValidOp(p, NextRef(s.tables[j]));
    }
  }

  lemma OneFetch(p: Program, s: State, i: nat) returns (acts: seq<Action>)
    requires Valid(p) && Typed(p, s) && i < |s.tables| && CanFetch(p, s, i)
    ensures Typed(p, FetchOp(p, s, i)) && Reaches(p, s, acts, FetchOp(p, s, i)) && StartsNothing(acts)
  {
    FetchTyped(p, s, i);
    acts := [Fetch(i)];
    assert acts[1..] == [];
  }

  ghost function Remaining(p: Program, l: LauncherTable): nat
    requires Valid(p) && (l.cursor.At? ==> l.cursor.block < |p.blocks| && l.cursor.next <= Length(p, l.cursor.block))
  {
    if l.cursor.At? then Length(p, l.cursor.block) - l.cursor.next else 0
  }

  lemma FetchUnfolds(p: Program, s: State, i: nat)
    requires Valid(p) && Typed(p, s) && i < |s.tables| && CanFetch(p, s, i)
    ensures var s' := FetchOp(p, s, i);
            && Typed(p, s') && |s'.tables| == |s.tables|
            && SetOpEntry(p, s, i) == (if s'.tables[i].entry.Busy? then s' else SetOpEntry(p, s', i))
            && (s'.tables[i].entry.Busy? ==> !CanFetch(p, s', i))
            && (s'.tables[i].entry.Idle? ==> Remaining(p, s'.tables[i]) < Remaining(p, s.tables[i]))
  {
    FetchTyped(p, s, i);
  }

  /** The fetch loop leaves its launcher unable to fetch, and the others alone. */
  lemma {:induction false} FetchExhausts(p: Program, s: State, i: nat)
    requires Valid(p) && Typed(p, s) && i < |s.tables|
    ensures OthersKept(s, SetOpEntry(p, s, i), i) && !CanFetch(p, SetOpEntry(p, s, i), i)
    decreases Remaining(p, s.tables[i])
  {
    if CanFetch(p, s, i) {
      var s' := FetchOp(p, s, i);
      FetchKeepsOthers(p, s, i);
      FetchUnfolds(p, s, i);
      hide *;
      if s'.tables[i].entry.Idle? {
        FetchExhausts(p, s', i);
        OthersKeptTwice(s, s', SetOpEntry(p, s, i), i);
      }
    }
  }

  lemma FetchAllOnce(p: Program, s: State, i: nat)
    requires Valid(p) && Typed(p, s) && i <= |s.tables|
    ensures FetchAll(p, s, i) == if i == |s.tables| then s else FetchAll(p, SetOpEntry(p, s, i), i + 1)
  {
  }

  lemma ExhaustsOneMore(p: Program, s: State, i: nat)
    requires Valid(p) && Typed(p, s) && i < |s.tables|
    requires forall j: nat :: j < i ==> !CanFetch(p, s, j)
    ensures |SetOpEntry(p, s, i).tables| == |s.tables|
    ensures forall j: nat :: j < i + 1 ==> !CanFetch(p, SetOpEntry(p, s, i), j)
  {
    var s' := SetOpEntry(p, s, i);
    FetchExhausts(p, s, i);
    hide SetOpEntry, CanFetch;
    forall j: nat | j < i + 1 ensures !CanFetch(p, s', j) {
      if j < i {
        StaysUnable(p, s, s', i, j);
      }
    }
  }

  lemma {:induction false} FetchAllExhausts(p: Program, s: State, i: nat)
    requires Valid(p) && Typed(p, s) && i <= |s.tables|
    requires forall j: nat :: j < i ==> !CanFetch(p, s, j)
    ensures Exhausted(p, FetchAll(p, s, i))
    decreases |s.tables| - i
  {
    hide Valid, Typed, SetOpEntry, FetchAll, CanFetch;
    FetchAllOnce(p, s, i);
    if i < |s.tables| {
      ExhaustsOneMore(p, s, i);
      hide Exhausted;
      FetchAllExhausts(p, SetOpEntry(p, s, i), i + 1);
    }
  }

  /** Fetching is a sequence of actions. */
  lemma {:induction false} FetchReaches(p: Program, s: State, i: nat) returns (acts: seq<Action>)
    requires Valid(p) && Inv(p, s) && i < |s.tables|
    ensures Reaches(p, s, acts, SetOpEntry(p, s, i)) && Inv(p, SetOpEntry(p, s, i)) && StartsNothing(acts)
    decreases Remaining(p, s.tables[i])
  {
    if !CanFetch(p, s, i) {
      acts := [];
    } else {
      var s', t := FetchOp(p, s, i), SetOpEntry(p, s, i);
      InvFetch(p, s, i);
      FetchUnfolds(p, s, i);
      assert Typed(p, s);
      hide *;
      var first := OneFetch(p, s, i);
      if s'.tables[i].entry.Busy? {
        acts := first;
      } else {
        var rest := FetchReaches(p, s', i);
        ReachesConcat(p, s, first, s', rest, t);
        StartsNothingConcat(first, rest);
        acts := first + rest;
      }
    }
  }

  lemma {:induction false} FetchAllReaches(p: Program, s: State, i: nat) returns (acts: seq<Action>)
    requires Valid(p) && Inv(p, s) && i <= |s.tables|
    ensures Reaches(p, s, acts, FetchAll(p, s, i)) && Inv(p, FetchAll(p, s, i)) && StartsNothing(acts)
    decreases |s.tables| - i
  {
    assert Typed(p, s);
    FetchAllOnce(p, s, i);
    TablesKept(p, s, i);
    hide *;
    if i == |s.tables| {
      acts := [];
      Reflexive(p, s);
    } else {
      var s' := SetOpEntry(p, s, i);
      var first := FetchReaches(p, s, i);
      var rest := FetchAllReaches(p, s', i + 1);
      ReachesConcat(p, s, first, s', rest, FetchAll(p, s', i + 1));
      StartsNothingConcat(first, rest);
      acts := first + rest;
    }
  }

  lemma TablesKept(p: Program, s: State, i: nat)
    requires Valid(p) && Typed(p, s) && i <= |s.tables|
    ensures i < |s.tables| ==> |SetOpEntry(p, s, i).tables| == |s.tables|
  {
  }

  // ----- Firing and admission -----

  lemma OneFire(p: Program, s: State, k: nat) returns (acts: seq<Action>)
    requires Valid(p) && Typed(p, s) && k < |s.controlQueue| && !Blocked(p, s, s.controlQueue[k])
    ensures Reaches(p, s, acts, FireOp(p, s, k)) && StartsNothing(acts)
  {
    acts := [Fire(k)];
    assert acts[1..] == [];
  }

  lemma FiringUnfolds(p: Program, s: State, k: nat)
    requires Valid(p) && Typed(p, s) && k <= |s.controlQueue|
    ensures CheckControlFrom(p, s, k)
         == if k == |s.controlQueue| then s
            else if Blocked(p, s, s.controlQueue[k]) then CheckControlFrom(p, s, k + 1)
            else CheckControlFrom(p, FireOp(p, s, k), 0)
    ensures k < |s.controlQueue| ==>
              IsRef(p, s.controlQueue[k]) && |FireOp(p, s, k).controlQueue| == |s.controlQueue| - 1
  {
  }

  lemma {:induction false} CheckControlReaches(p: Program, s: State, k: nat) returns (acts: seq<Action>)
    requires Valid(p) && Inv(p, s) && k <= |s.controlQueue|
    ensures Reaches(p, s, acts, CheckControlFrom(p, s, k)) && Inv(p, CheckControlFrom(p, s, k))
    ensures StartsNothing(acts)
    decreases |s.controlQueue|, |s.controlQueue| - k
  {
    assert Typed(p, s);
    FiringUnfolds(p, s, k);
    hide *;
    if k == |s.controlQueue| {
      acts := [];
      Reflexive(p, s);
    } else if Blocked(p, s, s.controlQueue[k]) {
      acts := CheckControlReaches(p, s, k + 1);
    } else {
      InvFire(p, s, k);
      var first := OneFire(p, s, k);
      var rest := CheckControlReaches(p, FireOp(p, s, k), 0);
      ReachesConcat(p, s, first, FireOp(p, s, k), rest, CheckControlFrom(p, s, k));
      StartsNothingConcat(first, rest);
      acts := first + rest;
    }
  }

  /** Every launcher from i on that would be admitted something is at the end of its body. */
  ghost predicate AdmitsAtEnd(p: Program, s: State, i: nat)
    requires Valid(p) && Typed(p, s)
  {
    forall j: nat :: i <= j < |s.tables| && CanAdmit(p, s, j) ==> AtEnd(p, s.tables[j])
  }

  /** Admission to one launcher concerns no other. */
  lemma AdmitStep(p: Program, s: State, i: nat) returns (acts: seq<Action>)
    requires Valid(p) && Inv(p, s) && i < |s.tables| && AdmitsAtEnd(p, s, i)
    ensures var s' := CheckEventQueue(p, s, i);
            && Reaches(p, s, acts, s') && Inv(p, s') && StartsNothing(acts)
            && AdmitsAtEnd(p, s', i + 1)
  {
    var s' := CheckEventQueue(p, s, i);
    if CanAdmit(p, s, i) {
      InvAdmit(p, s, i);
      acts := [Admit(i)];
      assert acts[1..] == [];
    } else {
      acts := [];
    }
    AdmitKeepsOthers(p, s, i);
  }

  lemma AdmitKeepsOthers(p: Program, s: State, i: nat)
    requires Valid(p) && Typed(p, s) && i < |s.tables| && AdmitsAtEnd(p, s, i)
    ensures AdmitsAtEnd(p, CheckEventQueue(p, s, i), i + 1)
  {
    var s' := CheckEventQueue(p, s, i);
    forall j: nat | i < j < |s'.tables| && CanAdmit(p, s', j) ensures AtEnd(p, s'.tables[j]) {
      BlockedByCounts(p, s, s', s.tables[j].queue[0]);
      assert CanAdmit(p, s, j);
    }
  }

  lemma BlockedByCounts(p: Program, s: State, t: State, o: Ref)
    requires Valid(p) && IsRef(p, o) && s.opMap == t.opMap && s.valueMap == t.valueMap
    ensures Blocked(p, s, o) == Blocked(p, t, o)
  {
    assert ValidOp(p, o);
    assert forall g :: g in OpAt(p, o).WaitsOn() ==> IsWaiting(p, s, o, g) == IsWaiting(p, t, o, g);
  }

  lemma {:induction false} AdmitOnceReaches(p: Program, s: State, i: nat) returns (acts: seq<Action>)
    requires Valid(p) && Inv(p, s) && AdmitsAtEnd(p, s, i) && i <= |s.tables|
    ensures Reaches(p, s, acts, AdmitOnce(p, s, i)) && Inv(p, AdmitOnce(p, s, i)) && StartsNothing(acts)
    decreases |s.tables| - i
  {
    assert Typed(p, s);
    AdmitUnfolds(p, s, i);
    hide *;
    if i == |s.tables| {
      acts := [];
      Reflexive(p, s);
    } else {
      var s' := CheckEventQueue(p, s, i);
      var first := AdmitStep(p, s, i);
      var rest := AdmitOnceReaches(p, s', i + 1);
      ReachesConcat(p, s, first, s', rest, AdmitOnce(p, s', i + 1));
      StartsNothingConcat(first, rest);
      acts := first + rest;
    }
  }

  lemma AdmitUnfolds(p: Program, s: State, i: nat)
    requires Valid(p) && Typed(p, s) && i <= |s.tables|
    ensures AdmitOnce(p, s, i) == if i == |s.tables| then s else AdmitOnce(p, CheckEventQueue(p, s, i), i + 1)
  {
  }

  lemma Reflexive(p: Program, s: State)
    requires Valid(p) && Typed(p, s)
    ensures Reaches(p, s, [], s) && StartsNothing([])
  {
  }

  lemma StartsNothingConcat(a: seq<Action>, b: seq<Action>)
    requires StartsNothing(a) && StartsNothing(b)
    ensures StartsNothing(a + b)
  {
  }

  /** The state of a round in which events are admitted. */
  function Fired(p: Program, s: State): (s': State)
    requires Valid(p) && Typed(p, s)
    ensures Typed(p, s')
  {
    CheckControlQueue(p, FetchAll(p, s, 0))
  }

  lemma FiredExhausted(p: Program, s: State)
    requires Valid(p) && Typed(p, s)
    ensures Exhausted(p, Fired(p, s))
  {
    FetchAllExhausts(p, s, 0);
    var fetched := FetchAll(p, s, 0);
    forall i: nat | i < |fetched.tables| ensures !CanFetch(p, Fired(p, s), i) {
      assert !CanFetch(p, fetched, i);
    }
  }

  lemma FiredReaches(p: Program, s: State) returns (acts: seq<Action>)
    requires Valid(p) && Inv(p, s)
    ensures Reaches(p, s, acts, Fired(p, s)) && Inv(p, Fired(p, s)) && StartsNothing(acts)
  {
    var fetch := FetchAllReaches(p, s, 0);
    var fetched := FetchAll(p, s, 0);
    var fire := CheckControlReaches(p, fetched, 0);
    assert Fired(p, s) == CheckControlFrom(p, fetched, 0);
    hide *;
    ReachesConcat(p, s, fetch, fetched, fire, Fired(p, s));
    StartsNothingConcat(fetch, fire);
    acts := fetch + fire;
  }

  lemma PrepareReaches(p: Program, s: State) returns (acts: seq<Action>)
    requires Valid(p) && Inv(p, s) && AdmitsAtEnd(p, Fired(p, s), 0)
    ensures Reaches(p, s, acts, Prepare(p, s)) && Inv(p, Prepare(p, s)) && StartsNothing(acts)
  {
    var before := FiredReaches(p, s);
    var admit := AdmitOnceReaches(p, Fired(p, s), 0);
    AdmitAllIsOnePass(p, FetchAll(p, s, 0));
    hide AdmitOnce, Reaches, Inv;
    ReachesConcat(p, s, before, Fired(p, s), admit, Prepare(p, s));
    acts := before + admit;
  }

  // ----- Starting and retiring -----

  lemma OneStart(p: Program, s: State, i: nat, end: Cycle) returns (acts: seq<Action>)
    requires Valid(p) && Typed(p, s) && i < |s.tables| && CanStart(p, s, i)
    ensures Reaches(p, s, acts, StartOp(p, s, i, end))
    ensures s.time <= end ==> InTime(p, s, acts)
  {
    acts := [Start(i, end)];
    assert acts[1..] == [];
  }

  lemma ScheduleStep(p: Program, s: State, i: nat, answer: Answer) returns (acts: seq<Action>)
    requires Valid(p) && Inv(p, s) && i < |s.tables|
    ensures var s' := ScheduleOp(p, s, i, answer);
            && Reaches(p, s, acts, s') && Inv(p, s')
            && (forall j: nat :: j < |s.tables| && j != i ==> s'.tables[j] == s.tables[j])
    ensures PromptAt(p, s, i, answer) ==> InTime(p, s, acts)
  {
    if CanStart(p, s, i) && ModelOp(OpAt(p, s.tables[i].entry.op), s.time, answer).Ends? {
      var end := ModelOp(OpAt(p, s.tables[i].entry.op), s.time, answer).at;
      InvStart(p, s, i, end);
      acts := OneStart(p, s, i, end);
    } else {
      acts := [];
    }
  }

  lemma ScheduleKeepsPrompt(p: Program, s: State, s': State, i: nat, answers: seq<Answer>)
    requires Valid(p) && Typed(p, s) && Typed(p, s') && |answers| == |s.tables| == |s'.tables| && s'.time == s.time
    requires forall j: nat :: j < |s.tables| && j != i ==> s'.tables[j] == s.tables[j]
    requires forall j: nat :: i <= j < |s.tables| ==> PromptAt(p, s, j, answers[j])
    ensures forall j: nat :: i + 1 <= j < |s'.tables| ==> PromptAt(p, s', j, answers[j])
  {
  }

  lemma {:induction false} ScheduleReaches(p: Program, s: State, answers: seq<Answer>, i: nat) returns (acts: seq<Action>)
    requires Valid(p) && Inv(p, s) && |answers| == |s.tables| && i <= |s.tables|
    ensures Reaches(p, s, acts, ScheduleAll(p, s, answers, i)) && Inv(p, ScheduleAll(p, s, answers, i))
    ensures (forall j: nat :: i <= j < |s.tables| ==> PromptAt(p, s, j, answers[j])) ==> InTime(p, s, acts)
    decreases |s.tables| - i
  {
    ScheduleOnce(p, s, answers, i);
    if i == |s.tables| {
      acts := [];
    } else {
      hide ScheduleAll, ScheduleOp, PromptAt, Reaches, InTime, Inv;
      var s' := ScheduleOp(p, s, i, answers[i]);
      var first := ScheduleStep(p, s, i, answers[i]);
      var rest := ScheduleReaches(p, s', answers, i + 1);
      ReachesConcat(p, s, first, s', rest, ScheduleAll(p, s', answers, i + 1));
      if forall j: nat :: i <= j < |s.tables| ==> PromptAt(p, s, j, answers[j]) {
        ScheduleKeepsPrompt(p, s, s', i, answers);
        InTimeConcat(p, s, first, s', rest);
      }
      acts := first + rest;
    }
  }

  lemma FinishStep(p: Program, s: State, i: nat) returns (acts: seq<Action>)
    requires Valid(p) && Inv(p, s) && i < |s.tables|
    ensures Reaches(p, s, acts, FinishOp(p, s, i)) && Inv(p, FinishOp(p, s, i)) && StartsNothing(acts)
  {
    assert Typed(p, s);
    if CanRetire(s, i) {
      InvRetire(p, s, i);
      hide Inv;
      acts := OneRetire(p, s, i);
    } else {
      acts := [];
    }
  }

  lemma OneRetire(p: Program, s: State, i: nat) returns (acts: seq<Action>)
    requires Valid(p) && Typed(p, s) && i < |s.tables| && CanRetire(s, i)
    ensures Reaches(p, s, acts, RetireOp(p, s, i)) && StartsNothing(acts)
  {
    acts := [Retire(i)];
    assert acts[1..] == [];
  }

  lemma {:induction false} FinishReaches(p: Program, s: State, i: nat) returns (acts: seq<Action>)
    requires Valid(p) && Inv(p, s) && i <= |s.tables|
    ensures Reaches(p, s, acts, FinishAll(p, s, i)) && Inv(p, FinishAll(p, s, i)) && StartsNothing(acts)
    decreases |s.tables| - i
  {
    assert Typed(p, s);
    FinishOnce(p, s, i);
    hide *;
    if i == |s.tables| {
      acts := [];
      Reflexive(p, s);
    } else {
      var s' := FinishOp(p, s, i);
      var first := FinishStep(p, s, i);
      var rest := FinishReaches(p, s', i + 1);
      ReachesConcat(p, s, first, s', rest, FinishAll(p, s', i + 1));
      StartsNothingConcat(first, rest);
      acts := first + rest;
    }
  }

  lemma ExecuteReaches(p: Program, s: State, answers: seq<Answer>) returns (acts: seq<Action>)
    requires Valid(p) && Inv(p, s) && |answers| == |s.tables|
    ensures Reaches(p, s, acts, Execute(p, s, answers)) && Inv(p, Execute(p, s, answers))
    ensures PromptRound(p, s, answers) ==> InTime(p, s, acts)
  {
    assert Typed(p, s);
    hide *;
    var started := ScheduleAll(p, s, answers, 0);
    var passed, t := Advance(started), Execute(p, s, answers);
    var start := ScheduleReaches(p, s, answers, 0);
    var pass := OnePass(p, started);
    var retire := FinishReaches(p, passed, 0);
    ExecuteUnfolds(p, s, answers);
    ReachesConcat(p, started, pass, passed, retire, t);
    StartsNothingConcat(pass, retire);
    InTimeTrivially(p, started, pass + retire, t);
    ReachesConcat(p, s, start, started, pass + retire, t);
    if PromptRound(p, s, answers) {
      PromptEverywhere(p, s, answers);
      InTimeConcat(p, s, start, started, pass + retire);
    }
    acts := start + (pass + retire);
  }

  lemma OnePass(p: Program, s: State) returns (acts: seq<Action>)
    requires Valid(p) && Inv(p, s)
    ensures Typed(p, Advance(s)) && Reaches(p, s, acts, Advance(s)) && Inv(p, Advance(s)) && StartsNothing(acts)
  {
    InvPass(p, s);
    acts := [Pass];
    assert acts[1..] == [];
  }

  lemma PromptEverywhere(p: Program, s: State, answers: seq<Answer>)
    requires Valid(p) && Typed(p, s) && |answers| == |s.tables| && PromptRound(p, s, answers)
    ensures forall j: nat :: 0 <= j < |s.tables| ==> PromptAt(p, s, j, answers[j])
  {
  }

  lemma ExecuteUnfolds(p: Program, s: State, answers: seq<Answer>)
    requires Valid(p) && Typed(p, s) && |answers| == |s.tables|
    ensures Execute(p, s, answers) == FinishAll(p, Advance(ScheduleAll(p, s, answers, 0)), 0)
  {
  }

  // ----- The whole simulation -----

  /** In no round of the simulation is a launch admitted in the middle of a body.  Only a full
      queue can bring that about. */
  ghost predicate NeverCutOff(p: Program, s: State, answers: seq<seq<Answer>>)
    requires Valid(p) && Typed(p, s) && TypedAnswers(p, answers)
    decreases answers
  {
    var ready := Prepare(p, s);
    && AdmitsAtEnd(p, Fired(p, s), 0)
    && (Running(ready) && answers != [] ==> NeverCutOff(p, Execute(p, ready, answers[0]), answers[1..]))
  }

  /** The simulator refines the transition system: as long as no body is cut off, its state is
      reached by enabled actions and satisfies the invariant, whatever the models answer.  When
      no model answers with an end that has passed, the run is in time. */
  lemma {:induction false} SimulateReaches(p: Program, s: State, answers: seq<seq<Answer>>) returns (acts: seq<Action>)
    requires Valid(p) && Inv(p, s) && TypedAnswers(p, answers) && NeverCutOff(p, s, answers)
    ensures var t := Simulate(p, s, answers);
            Reaches(p, s, acts, t) && Inv(p, t)
    ensures PromptRounds(p, s, answers) ==> InTime(p, s, acts)
    decreases answers
  {
    acts := PrepareReaches(p, s);
    var ready := Prepare(p, s);
    InTimeTrivially(p, s, acts, ready);
    if Running(ready) && answers != [] {
      var step := ExecuteReaches(p, ready, answers[0]);
      var s' := Execute(p, ready, answers[0]);
      var rest := SimulateReaches(p, s', answers[1..]);
      var t := Simulate(p, s', answers[1..]);
      assert PromptRounds(p, s, answers) ==> PromptRound(p, ready, answers[0]) && PromptRounds(p, s', answers[1..]);
      assert Simulate(p, s, answers) == t;
      hide *;
      ReachesConcat(p, ready, step, s', rest, t);
      ReachesConcat(p, s, acts, ready, step + rest, t);
      if PromptRounds(p, s, answers) {
        InTimeConcat(p, ready, step, s', rest);
        InTimeConcat(p, s, acts, ready, step + rest);
      }
      acts := acts + (step + rest);
    }
  }

  // ----- When nothing is cut off -----

  /** A launcher that is idle is at the end of its body. */
  predicate SettledAt(p: Program, s: State, i: nat)
    requires Valid(p) && i < |s.tables|
  {
    s.tables[i].entry.Idle? ==> AtEnd(p, s.tables[i])
  }

  ghost predicate Settled(p: Program, s: State)
    requires Valid(p)
  {
    forall i: nat :: i < |s.tables| ==> SettledAt(p, s, i)
  }

  ghost predicate NoQueueFull(s: State) {
    forall i: nat :: i < |s.tables| ==> |s.tables[i].queue| < EVENT_QUEUE_SIZE
  }

  /** Launchers that cannot fetch although no queue is full are settled. */
  lemma ExhaustedSettled(p: Program, s: State)
    requires Valid(p) && Typed(p, s) && Exhausted(p, s) && NoQueueFull(s)
    ensures Settled(p, s)
  {
    forall i: nat | i < |s.tables| ensures SettledAt(p, s, i) {
      assert !CanFetch(p, s, i);
      assert HasNext(p, s.tables[i]) ==> ValidOp(p, NextRef(s.tables[i]));
    }
  }

  /** ... as they are in every program that passes the static load check. */
  lemma FittingSettled(p: Program, s: State)
    requires Valid(p) && Inv(p, s) && Exhausted(p, s) && FitsQueues(p)
    ensures Settled(p, s) && AdmitsAtEnd(p, s, 0)
  {
    forall i: nat | i < |s.tables| ensures SettledAt(p, s, i) {
      assert !CanFetch(p, s, i);
      if HasNext(p, s.tables[i]) {
        FetchNeverStuck(p, s, i);
      }
    }
    forall i: nat | i < |s.tables| && CanAdmit(p, s, i) ensures AtEnd(p, s.tables[i]) {
      assert SettledAt(p, s, i);
    }
  }

  lemma AdmitSettled(p: Program, s: State, i: nat)
    requires Valid(p) && Typed(p, s) && Settled(p, s) && i < |s.tables|
    ensures Settled(p, CheckEventQueue(p, s, i))
  {
    var s' := CheckEventQueue(p, s, i);
    forall j: nat | j < |s'.tables| ensures SettledAt(p, s', j) {
      assert SettledAt(p, s, j);
    }
  }

  lemma {:induction false} AdmitOnceSettled(p: Program, s: State, i: nat)
    requires Valid(p) && Typed(p, s) && Settled(p, s) && i <= |s.tables|
    ensures Settled(p, AdmitOnce(p, s, i))
    decreases |s.tables| - i
  {
    hide Typed, Valid, Settled, CheckEventQueue, AdmitOnce;
    AdmitUnfolds(p, s, i);
    if i < |s.tables| {
      AdmitSettled(p, s, i);
      AdmitOnceSettled(p, CheckEventQueue(p, s, i), i + 1);
    }
  }

  /** A program that passes the static load check is never cut off, and its launchers always
      work on something or are at the end of their bodies. */
  lemma {:induction false} FittingNeverCutOff(p: Program, s: State, answers: seq<seq<Answer>>)
    requires Valid(p) && Inv(p, s) && FitsQueues(p) && TypedAnswers(p, answers)
    ensures NeverCutOff(p, s, answers) && Settled(p, Simulate(p, s, answers))
    decreases answers
  {
    var before := FiredReaches(p, s);
    FiredExhausted(p, s);
    FittingSettled(p, Fired(p, s));
    var acts := PrepareReaches(p, s);
    AdmitAllIsOnePass(p, FetchAll(p, s, 0));
    AdmitOnceSettled(p, Fired(p, s), 0);
    var ready := Prepare(p, s);
    if Running(ready) && answers != [] {
      var step := ExecuteReaches(p, ready, answers[0]);
      FittingNeverCutOff(p, Execute(p, ready, answers[0]), answers[1..]);
    }
  }
}
