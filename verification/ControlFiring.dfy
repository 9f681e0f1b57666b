/** The control queue is a dataflow network: which operations fire, and how often, does not
    depend on the order in which the queue is scanned. */
module ControlFiring {
  import opened Arithmetic
  import opened Programs
  import opened Unrolling
  import opened Simulator
  import opened Effects

  /** Nothing in the control queue can fire. */
  ghost predicate Quiescent(p: Program, s: State)
    requires Valid(p) && Typed(p, s)
  {
    forall r :: r in s.controlQueue ==> Blocked(p, s, r)
  }

  /** Some sequence of firings of unblocked operations, given by queue positions, leads from s to t. */
  ghost predicate Fires(p: Program, s: State, ks: seq<nat>, t: State)
    requires Valid(p) && Typed(p, s)
    decreases ks
  {
    if ks == [] then s == t
    else
      && ks[0] < |s.controlQueue|
      && !Blocked(p, s, s.controlQueue[ks[0]])
      && Fires(p, FireOp(p, s, ks[0]), ks[1..], t)
  }

  lemma {:induction false} ScanBlocked(p: Program, s: State, k: nat)
    requires Valid(p) && Typed(p, s) && k <= |s.controlQueue|
    requires forall j :: k <= j < |s.controlQueue| ==> Blocked(p, s, s.controlQueue[j])
    ensures CheckControlFrom(p, s, k) == s
    decreases |s.controlQueue| - k
  {
    if k < |s.controlQueue| {
      ScanBlocked(p, s, k + 1);
    }
  }

  /** The scan performs firings until nothing can fire any more. */
  lemma {:induction false} CheckControlFires(p: Program, s: State, k: nat) returns (ks: seq<nat>)
    requires Valid(p) && Typed(p, s) && k <= |s.controlQueue|
    requires forall j :: 0 <= j < k ==> Blocked(p, s, s.controlQueue[j])
    ensures Fires(p, s, ks, CheckControlFrom(p, s, k))
    ensures Quiescent(p, CheckControlFrom(p, s, k))
    decreases |s.controlQueue|, |s.controlQueue| - k
  {
    if k == |s.controlQueue| {
      ks := [];
    } else if Blocked(p, s, s.controlQueue[k]) {
      ks := CheckControlFires(p, s, k + 1);
    } else {
      var rest := CheckControlFires(p, FireOp(p, s, k), 0);
      ks := [k] + rest;
      assert ks[1..] == rest;
    }
  }

  /** Starts and productions of every operation, counting those still waiting in the queue as done. */
  ghost predicate SameTotals(s: State, t: State) {
    forall o ::
      && Count(s.opMap, o) + Occurs(s.controlQueue, o) == Count(t.opMap, o) + Occurs(t.controlQueue, o)
      && Count(s.valueMap, o) + Occurs(s.controlQueue, o) == Count(t.valueMap, o) + Occurs(t.controlQueue, o)
  }

  /** `t` has fired everything `s` has. */
  ghost predicate NotBehind(s: State, t: State) {
    forall o :: Occurs(t.controlQueue, o) <= Occurs(s.controlQueue, o)
  }

  lemma FireTotals(p: Program, s: State, k: nat, o: Ref)
    requires Valid(p) && Typed(p, s) && k < |s.controlQueue|
    ensures var s' := FireOp(p, s, k);
            var n := if o == s.controlQueue[k] then 1 else 0;
            && Occurs(s.controlQueue, o) == Occurs(s'.controlQueue, o) + n
            && Count(s'.opMap, o) == Count(s.opMap, o) + n
            && Count(s'.valueMap, o) == Count(s.valueMap, o) + n
  {
    assert s.controlQueue == s.controlQueue[..k] + [s.controlQueue[k]] + s.controlQueue[k + 1..];
  }

  lemma FireKeepsTotals(p: Program, s: State, k: nat, t: State)
    requires Valid(p) && Typed(p, s) && k < |s.controlQueue| && SameTotals(s, t)
    ensures SameTotals(FireOp(p, s, k), t) && SameTotals(t, FireOp(p, s, k))
  {
    forall o { FireTotals(p, s, k, o); }
  }

  /** Readiness only depends on the counts, and more productions never block. */
  lemma StillReady(p: Program, s: State, t: State, o: Ref)
    requires Valid(p) && Typed(p, s) && Typed(p, t) && IsRef(p, o) && !Blocked(p, s, o)
    requires Count(t.opMap, o) == Count(s.opMap, o)
    requires forall g :: Count(s.valueMap, g) <= Count(t.valueMap, g)
    ensures !Blocked(p, t, o)
  {
    assert ValidOp(p, o);
    forall g | g in OpAt(p, o).WaitsOn() ensures !IsWaiting(p, t, o, g) {
      assert !IsWaiting(p, s, o, g);
      var n := BlockExs(p, o.block);
      assert n * Count(s.valueMap, g) <= n * Count(t.valueMap, g) by {
        MulMonotone(n, Count(s.valueMap, g), Count(t.valueMap, g));
      }
      SomeProduced(Count(s.opMap, o) * BlockExs(p, g.block), n, Count(s.valueMap, g));
    }
  }

  lemma SomeProduced(used: nat, n: nat, made: nat)
    requires used < n * made
    ensures made > 0
  {
  }

  /** The heart of confluence: a quiescent state reached by firing is never overtaken. */
  lemma FireNotBehind(p: Program, s: State, k: nat, q: State)
    requires Valid(p) && Typed(p, s) && Typed(p, q) && Quiescent(p, q)
    requires SameTotals(s, q) && NotBehind(s, q)
    requires k < |s.controlQueue| && !Blocked(p, s, s.controlQueue[k])
    ensures NotBehind(FireOp(p, s, k), q)
  {
    var r := s.controlQueue[k];
    forall o ensures Occurs(q.controlQueue, o) <= Occurs(FireOp(p, s, k).controlQueue, o) {
      FireTotals(p, s, k, o);
      if o == r && Occurs(q.controlQueue, r) == Occurs(s.controlQueue, r) {
        assert r in q.controlQueue;
        StillReady(p, s, q, r);
        assert false;
      }
    }
  }

  lemma {:induction false} FiresNotBehind(p: Program, s: State, ks: seq<nat>, t: State, q: State)
    requires Valid(p) && Typed(p, s) && Typed(p, q) && Quiescent(p, q)
    requires SameTotals(s, q) && NotBehind(s, q) && Fires(p, s, ks, t)
    ensures Typed(p, t) && SameTotals(t, q) && NotBehind(t, q)
    decreases ks
  {
    if ks != [] {
      FireKeepsTotals(p, s, ks[0], q);
      FireNotBehind(p, s, ks[0], q);
      FiresNotBehind(p, FireOp(p, s, ks[0]), ks[1..], t, q);
    }
  }

  lemma {:induction false} FiresForward(p: Program, s: State, ks: seq<nat>, t: State)
    requires Valid(p) && Typed(p, s) && Fires(p, s, ks, t)
    ensures Typed(p, t) && SameTotals(s, t) && NotBehind(s, t)
    decreases ks
  {
    if ks != [] {
      var s' := FireOp(p, s, ks[0]);
      FiresForward(p, s', ks[1..], t);
      forall o { FireTotals(p, s, ks[0], o); }
    }
  }

  /** The same operations are waiting, in any order, with the same counts. */
  ghost predicate SameUpToOrder(s: State, t: State) {
    && multiset(s.controlQueue) == multiset(t.controlQueue)
    && (forall o :: Count(s.opMap, o) == Count(t.opMap, o))
    && (forall o :: Count(s.valueMap, o) == Count(t.valueMap, o))
  }

  /** Any two maximal ways of firing, from queues that differ only in order, end alike. */
  lemma FiringConfluent(p: Program, s1: State, ks1: seq<nat>, t1: State, s2: State, ks2: seq<nat>, t2: State)
    requires Valid(p) && Typed(p, s1) && Typed(p, s2) && SameUpToOrder(s1, s2)
    requires Fires(p, s1, ks1, t1) && Fires(p, s2, ks2, t2)
    requires Typed(p, t1) && Typed(p, t2) && Quiescent(p, t1) && Quiescent(p, t2)
    ensures SameUpToOrder(t1, t2)
  {
    hide *;
    FiresForward(p, s1, ks1, t1);
    FiresForward(p, s2, ks2, t2);
    SameEnds(s1, s2, t1, t2);
    FiresNotBehind(p, s1, ks1, t1, t2);
    FiresNotBehind(p, s2, ks2, t2, t1);
    MutuallyNotBehind(t1, t2);
  }

  lemma SameEnds(s1: State, s2: State, t1: State, t2: State)
    requires SameUpToOrder(s1, s2) && SameTotals(s1, t1) && SameTotals(s2, t2)
    requires NotBehind(s1, t1) && NotBehind(s2, t2)
    ensures SameTotals(s1, t2) && SameTotals(s2, t1) && NotBehind(s1, t2) && NotBehind(s2, t1)
  {
    assert forall o :: Occurs(s1.controlQueue, o) == Occurs(s2.controlQueue, o);
  }

  lemma MutuallyNotBehind(t1: State, t2: State)
    requires SameTotals(t1, t2) && NotBehind(t1, t2) && NotBehind(t2, t1)
    ensures SameUpToOrder(t1, t2)
  {
    forall o ensures multiset(t1.controlQueue)[o] == multiset(t2.controlQueue)[o] {
      assert Occurs(t1.controlQueue, o) == Occurs(t2.controlQueue, o);
    }
    SameOccurrences(multiset(t1.controlQueue), multiset(t2.controlQueue));
  }

  lemma SameOccurrences(a: multiset<Ref>, b: multiset<Ref>)
    requires forall o :: a[o] == b[o]
    ensures a == b
  {
  }

  /** The source's scan is one such way, so the order of the queue is irrelevant to it; it
      leaves nothing that can fire. */
  lemma CheckControlOrderIrrelevant(p: Program, s1: State, s2: State)
    requires Valid(p) && Typed(p, s1) && Typed(p, s2) && SameUpToOrder(s1, s2)
    ensures SameUpToOrder(CheckControlQueue(p, s1), CheckControlQueue(p, s2))
    ensures Quiescent(p, CheckControlQueue(p, s1))
  {
    var ks1 := CheckControlFires(p, s1, 0);
    var ks2 := CheckControlFires(p, s2, 0);
    FiringConfluent(p, s1, ks1, CheckControlQueue(p, s1), s2, ks2, CheckControlQueue(p, s2));
  }

  // ----- The restart of the admission loop -----

  function AdmitOnce(p: Program, s: State, i: nat): (s': State)
    requires Valid(p) && Typed(p, s) && i <= |s.tables|
    ensures Typed(p, s') && |s'.tables| == |s.tables|
    decreases |s.tables| - i
  {
    if i == |s.tables| then s else AdmitOnce(p, CheckEventQueue(p, s, i), i + 1)
  }

  lemma AdmitKeepsQuiescent(p: Program, s: State, i: nat)
    requires Valid(p) && Typed(p, s) && i < |s.tables| && Quiescent(p, s)
    ensures Quiescent(p, CheckEventQueue(p, s, i))
    ensures CheckControlQueue(p, CheckEventQueue(p, s, i)) == CheckEventQueue(p, s, i)
  {
    var s' := CheckEventQueue(p, s, i);
    assert s'.opMap == s.opMap && s'.valueMap == s.valueMap && s'.controlQueue == s.controlQueue;
    forall r | r in s'.controlQueue ensures Blocked(p, s', r) {
      assert ValidOp(p, r);
      var g :| g in OpAt(p, r).WaitsOn() && IsWaiting(p, s, r, g);
      assert IsWaiting(p, s', r, g);
    }
    ScanBlocked(p, s', 0);
  }

  lemma {:induction false} AdmitFromIsOnce(p: Program, s: State, i: nat)
    requires Valid(p) && Typed(p, s) && 1 <= i <= |s.tables| && Quiescent(p, s)
    ensures AdmitFrom(p, s, i) == AdmitOnce(p, s, i)
    decreases |s.tables| - i
  {
    if i < |s.tables| {
      var s' := CheckEventQueue(p, s, i);
      AdmitKeepsQuiescent(p, s, i);
      assert AdmitFrom(p, s, i) == AdmitFrom(p, s', i + 1);
      AdmitFromIsOnce(p, s', i + 1);
    }
  }

  /** Admitting an event changes no count, so after the first scan no control operation ever
      fires again in the loop and its restart is never taken: the whole phase fires what can
      fire and then looks at each launcher once. */
  lemma AdmitAllIsOnePass(p: Program, s: State)
    requires Valid(p) && Typed(p, s)
    ensures AdmitAll(p, s) == AdmitOnce(p, CheckControlQueue(p, s), 0)
  {
    assert TypedQueue(p, 0, s.tables[0].queue);
    if s.tables[0].queue != [] {
      EventNotOnHost(p, s.tables[0].queue[0]);
      assert false;
    }
    var ks := CheckControlFires(p, s, 0);
    AdmitFromIsOnce(p, CheckControlQueue(p, s), 1);
  }

  // ----- The two phases in terms of operands and queues -----

  /** After the scan everything left lacks a signal, and what went was started and produced. */
  lemma CheckControlEffect(p: Program, s: State)
    requires Valid(p) && Typed(p, s)
    ensures ControlEffect(p, s, CheckControlQueue(p, s))
  {
    var t := CheckControlQueue(p, s);
    var ks := CheckControlFires(p, s, 0);
    FiresForward(p, s, ks, t);
    forall r | r in t.controlQueue ensures IsRef(p, r) && Waits(p, t, r) {
      BlockedWaits(p, t, r);
    }
    forall o ensures Times(t.controlQueue, o) == Occurs(t.controlQueue, o) {
    }
    forall o ensures Times(s.controlQueue, o) == Occurs(s.controlQueue, o) {
    }
  }

  lemma {:induction false} AdmitOnceTables(p: Program, s: State, i: nat)
    requires Valid(p) && Typed(p, s) && i <= |s.tables|
    ensures var t := AdmitOnce(p, s, i);
            && t == s.(tables := t.tables) && |t.tables| == |s.tables|
            && forall j: nat :: j < |s.tables| ==>
                 t.tables[j] == if j < i then s.tables[j] else AdmittedTable(p, s, j)
    decreases |s.tables| - i
  {
    hide *;
    if i < |s.tables| {
      AdmitsOne(p, s, i);
      AdmitOnceTables(p, CheckEventQueue(p, s, i), i + 1);
    } else {
      AdmitsNone(p, s);
    }
  }

  lemma AdmitsNone(p: Program, s: State)
    requires Valid(p) && Typed(p, s)
    ensures AdmitOnce(p, s, |s.tables|) == s
  {
  }

  lemma AdmitsOne(p: Program, s: State, i: nat)
    requires Valid(p) && Typed(p, s) && i < |s.tables|
    ensures var s' := CheckEventQueue(p, s, i);
            && AdmitOnce(p, s, i) == AdmitOnce(p, s', i + 1)
            && s' == s.(tables := s'.tables) && |s'.tables| == |s.tables|
            && s'.tables[i] == AdmittedTable(p, s, i)
            && forall j: nat :: j < |s.tables| && j != i ==>
                 s'.tables[j] == s.tables[j] && AdmittedTable(p, s', j) == AdmittedTable(p, s, j)
  {
    CheckEventQueueEffect(p, s, i);
    assert AdmitOnce(p, s, i) == AdmitOnce(p, CheckEventQueue(p, s, i), i + 1);
    forall j: nat | j < |s.tables| && j != i
      ensures AdmittedTable(p, CheckEventQueue(p, s, i), j) == AdmittedTable(p, s, j)
    {
      OthersAdmitted(p, s, i, j);
    }
  }

  lemma OthersAdmitted(p: Program, s: State, i: nat, j: nat)
    requires Valid(p) && Typed(p, s) && i < |s.tables| && j < |s.tables| && i != j
    ensures AdmittedTable(p, CheckEventQueue(p, s, i), j) == AdmittedTable(p, s, j)
  {
    CheckEventQueueEffect(p, s, i);
  }

  /** The admission phase fires what can fire and then admits, for every launcher, the first
      event of its queue if it can be. */
  lemma AdmitAllEffect(p: Program, s: State)
    requires Valid(p) && Typed(p, s)
    ensures var fired, t := CheckControlQueue(p, s), AdmitAll(p, s);
            && ControlEffect(p, s, fired)
            && t == fired.(tables := t.tables) && |t.tables| == |s.tables|
            && forall i: nat :: i < |s.tables| ==> t.tables[i] == AdmittedTable(p, fired, i)
  {
    CheckControlEffect(p, s);
    AdmitAllIsOnePass(p, s);
    AdmitOnceTables(p, CheckControlQueue(p, s), 0);
  }
}
