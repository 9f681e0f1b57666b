/** Lowering of a parallel loop whose body was cloned into one block: a chain of binary
    control_and operations over all events of the block, closed by an await. */
module Barriers {
  import opened Arithmetic
  import opened Programs
  import opened Unrolling
  import opened Simulator
  import opened Actions
  import opened Invariants
  import opened ControlFiring
  import opened Rounds
  import opened RunTheorems

  /** The launches and memcpys among the first n operations of a block. */
  function EventsOf(b: nat, ops: seq<Op>, n: nat): (events: seq<Ref>)
    requires n <= |ops|
  {
    if n == 0 then []
    else EventsOf(b, ops, n - 1) + if ops[n - 1].IsEvent() then [Ref(b, n - 1)] else []
  }

  lemma {:induction false} EventsOfAll(b: nat, ops: seq<Op>, n: nat, r: Ref)
    requires n <= |ops|
    ensures r in EventsOf(b, ops, n) <==> r.block == b && r.index < n && ops[r.index].IsEvent()
  {
    if n > 0 {
      EventsOfAll(b, ops, n - 1, r);
    }
  }

  /** The signal that stands for the first j + 1 events; the chain starts at position `at`. */
  function Joined(b: nat, at: nat, events: seq<Ref>, j: nat): Ref
    requires j < |events|
  {
    if j == 0 then events[0] else Ref(b, at + j - 1)
  }

  predicate IsChain(b: nat, at: nat, events: seq<Ref>, chain: seq<Op>, n: nat)
    requires 1 <= n <= |events|
  {
    |chain| == n - 1 &&
    forall j :: 1 <= j < n ==> chain[j - 1] == Control([Joined(b, at, events, j - 1), events[j]])
  }

  /** The block with a chain over all its events and an await in front of its last operation. */
  predicate IsLowered(b: nat, ops: seq<Op>, lowered: seq<Op>)
    requires ops != [] && EventsOf(b, ops, |ops| - 1) != []
  {
    var at := |ops| - 1;
    var events := EventsOf(b, ops, at);
    var n := |events|;
    && |lowered| == |ops| + n
    && lowered[..at] == ops[..at]
    && IsChain(b, at, events, lowered[at..at + n - 1], n)
    && lowered[at + n - 1] == Await([Joined(b, at, events, n - 1)])
    && lowered[at + n] == ops[at]
  }

  /** The loop that appends the chain, as in the source; the block's last operation stays last. */
  method AddBarrier(b: nat, ops: seq<Op>) returns (lowered: seq<Op>)
    requires ops != [] && EventsOf(b, ops, |ops| - 1) != []
    ensures IsLowered(b, ops, lowered)
  {
    var at := |ops| - 1;
    var chain: seq<Op> := [];
    var events: seq<Ref> := [];
    var prevSignal := Ref(0, 0);
    hide IsChain, Joined;
    for k := 0 to at
      invariant events == EventsOf(b, ops, k)
      invariant events == [] ==> chain == []
      invariant events != [] ==> IsChain(b, at, events, chain, |events|)
      invariant events != [] ==> prevSignal == Joined(b, at, events, |events| - 1)
    {
      if ops[k].IsEvent() {
        var signal := Ref(b, k);
        if events == [] {
          ChainStarts(b, at, signal);
          prevSignal := signal;
        } else {
          ChainGrows(b, at, events, chain, signal);
          chain := chain + [Control([prevSignal, signal])];
          prevSignal := Ref(b, at + |chain| - 1);
        }
        events := events + [signal];
      }
    }
    Assembled(b, ops, chain);
    lowered := ops[..at] + chain + [Await([prevSignal])] + [ops[at]];
  }

  lemma Assembled(b: nat, ops: seq<Op>, chain: seq<Op>)
    requires ops != [] && EventsOf(b, ops, |ops| - 1) != []
    requires IsChain(b, |ops| - 1, EventsOf(b, ops, |ops| - 1), chain, |EventsOf(b, ops, |ops| - 1)|)
    ensures var at := |ops| - 1;
            var events := EventsOf(b, ops, at);
            IsLowered(b, ops, ops[..at] + chain + [Await([Joined(b, at, events, |events| - 1)])] + [ops[at]])
  {
    var at := |ops| - 1;
    var events := EventsOf(b, ops, at);
    var lowered := ops[..at] + chain + [Await([Joined(b, at, events, |events| - 1)])] + [ops[at]];
    ChainLength(b, at, events, chain);
    hide IsChain, Joined, EventsOf;
    assert lowered[at..at + |chain|] == chain && lowered[..at] == ops[..at];
  }

  lemma ChainStarts(b: nat, at: nat, signal: Ref)
    ensures IsChain(b, at, [signal], [], 1) && Joined(b, at, [signal], 0) == signal
  {
  }

  lemma ChainGrows(b: nat, at: nat, events: seq<Ref>, chain: seq<Op>, signal: Ref)
    requires events != [] && IsChain(b, at, events, chain, |events|)
    ensures var link := Control([Joined(b, at, events, |events| - 1), signal]);
            && IsChain(b, at, events + [signal], chain + [link], |events| + 1)
            && Joined(b, at, events + [signal], |events|) == Ref(b, at + |chain|)
  {
    var more := events + [signal];
    assert forall j :: 0 <= j < |events| ==> Joined(b, at, more, j) == Joined(b, at, events, j);
  }

  lemma ChainLength(b: nat, at: nat, events: seq<Ref>, chain: seq<Op>)
    requires events != [] && IsChain(b, at, events, chain, |events|)
    ensures |chain| == |events| - 1
  {
  }

  /** Block b of the program ends in such a barrier. */
  ghost predicate HasBarrier(p: Program, b: nat, at: nat, events: seq<Ref>)
    requires Valid(p) && b < |p.blocks|
  {
    var ops := p.blocks[b].ops;
    var n := |events|;
    && n > 0
    && at + n < |ops|
    && events == EventsOf(b, ops, at)
    && IsChain(b, at, events, ops[at..at + n - 1], n)
    && ops[at + n - 1] == Await([Joined(b, at, events, n - 1)])
  }

  // ----- What the pass builds -----

  function LoweredProgram(p: Program, b: nat, lowered: seq<Op>): Program
    requires b < |p.blocks|
  {
    p.(blocks := p.blocks[b := p.blocks[b].(ops := lowered)])
  }

  lemma {:induction false} EventsOfPrefix(b: nat, ops: seq<Op>, lowered: seq<Op>, n: nat)
    requires n <= |ops| && n <= |lowered| && lowered[..n] == ops[..n]
    ensures EventsOf(b, lowered, n) == EventsOf(b, ops, n)
  {
    if n > 0 {
      assert lowered[..n][..n - 1] == lowered[..n - 1] && ops[..n][..n - 1] == ops[..n - 1];
      assert lowered[n - 1] == lowered[..n][n - 1] == ops[n - 1];
      EventsOfPrefix(b, ops, lowered, n - 1);
    }
  }

  /** The operations of a lowered block: the old ones, the chain, the await and the old end. */
  lemma LoweredOps(b: nat, ops: seq<Op>, lowered: seq<Op>, k: nat)
    requires ops != [] && EventsOf(b, ops, |ops| - 1) != [] && IsLowered(b, ops, lowered) && k < |lowered|
    ensures var at := |ops| - 1;
            var n := |EventsOf(b, ops, at)|;
            && (k < at ==> lowered[k] == ops[k])
            && (at <= k < at + n - 1 ==>
                  lowered[k] == Control([Joined(b, at, EventsOf(b, ops, at), k - at), EventsOf(b, ops, at)[k - at + 1]]))
            && (k == at + n ==> lowered[k] == ops[at])
  {
    var at := |ops| - 1;
    var n := |EventsOf(b, ops, at)|;
    if k < at {
      assert lowered[k] == lowered[..at][k] == ops[..at][k];
    } else if k < at + n - 1 {
      assert lowered[k] == lowered[at..at + n - 1][k - at];
    }
  }

  /** References to the old operations are references to the same operations. */
  lemma SameRefs(p: Program, b: nat, lowered: seq<Op>, r: Ref)
    requires Valid(p) && b < |p.blocks|
    requires var ops := p.blocks[b].ops; ops != [] && EventsOf(b, ops, |ops| - 1) != [] && IsLowered(b, ops, lowered)
    requires IsRef(p, r) && !(r.block == b && r.index == |p.blocks[b].ops| - 1)
    ensures IsRef(LoweredProgram(p, b, lowered), r) && OpAt(LoweredProgram(p, b, lowered), r) == OpAt(p, r)
  {
    if r.block == b {
      LoweredOps(b, p.blocks[b].ops, lowered, r.index);
    }
  }

  lemma LoweredBlocks(p: Program, b: nat, lowered: seq<Op>, c: nat)
    requires Valid(p) && b < |p.blocks| && c < |p.blocks|
    requires var ops := p.blocks[b].ops; ops != [] && EventsOf(b, ops, |ops| - 1) != [] && IsLowered(b, ops, lowered)
    ensures ValidBlock(LoweredProgram(p, b, lowered), c)
  {
    var p' := LoweredProgram(p, b, lowered);
    assert ValidBlock(p, c) && ValidBlock(p, b);
    assert c != b ==> p'.blocks[c] == p.blocks[c];
    assert p'.blocks[c].parent == p.blocks[c].parent;
    if c == b {
      LoweredEnds(b, p.blocks[b].ops, lowered);
    }
    if c > 0 {
      SameRefs(p, b, lowered, p.blocks[c].parent);
    }
    hide Valid, IsLowered, EventsOf;
    SameBlock(p, p', c);
  }

  /** A block stays valid when its end, its parent and its other operations' kinds do. */
  lemma SameBlock(p: Program, p': Program, c: nat)
    requires |p'.blocks| == |p.blocks| && c < |p.blocks| && ValidBlock(p, c)
    requires p'.blocks[c].parent == p.blocks[c].parent
    requires var ops, ops' := p.blocks[c].ops, p'.blocks[c].ops;
             && |ops'| > 0 && ops'[|ops'| - 1] == ops[|ops| - 1]
             && forall k :: 0 <= k < |ops'| - 1 ==> !ops'[k].EndsBlock()
    requires var q := p.blocks[c].parent;
             c > 0 ==> IsRef(p', q) && OpAt(p', q) == OpAt(p, q)
    ensures ValidBlock(p', c)
  {
  }

  lemma LoweredEnds(b: nat, ops: seq<Op>, lowered: seq<Op>)
    requires ops != [] && EventsOf(b, ops, |ops| - 1) != [] && IsLowered(b, ops, lowered)
    requires forall k :: 0 <= k < |ops| - 1 ==> !ops[k].EndsBlock()
    ensures |lowered| > 0 && lowered[|lowered| - 1] == ops[|ops| - 1]
    ensures forall k :: 0 <= k < |lowered| - 1 ==> !lowered[k].EndsBlock()
  {
    forall k | 0 <= k < |lowered| - 1 ensures !lowered[k].EndsBlock() {
      LoweredOps(b, ops, lowered, k);
    }
  }

  /** The added operations wait for events of the block or for one another. */
  lemma AddedRefs(p: Program, b: nat, lowered: seq<Op>, r: Ref)
    requires Valid(p) && b < |p.blocks|
    requires var ops := p.blocks[b].ops; ops != [] && EventsOf(b, ops, |ops| - 1) != [] && IsLowered(b, ops, lowered)
    requires IsRef(LoweredProgram(p, b, lowered), r)
    requires r.block == b && |p.blocks[b].ops| - 1 <= r.index < |lowered| - 1
    ensures ValidOp(LoweredProgram(p, b, lowered), r)
  {
    var p', ops := LoweredProgram(p, b, lowered), p.blocks[b].ops;
    var at := |ops| - 1;
    var events := EventsOf(b, ops, at);
    var k := r.index - at;
    LoweredOps(b, ops, lowered, r.index);
    assert OpAt(p', r) == lowered[r.index];
    assert k < |events|;
    if k < |events| - 1 {
      assert lowered[r.index] == Control([Joined(b, at, events, k), events[k + 1]]);
      hide *;
      JoinedSignal(p, b, lowered, k);
      JoinedSignal(p, b, lowered, k + 1);
      ControlValid(p', r, Joined(b, at, events, k), events[k + 1]);
    } else {
      assert lowered[r.index] == Await([Joined(b, at, events, k)]);
      hide *;
      JoinedSignal(p, b, lowered, k);
      AwaitValid(p', r, Joined(b, at, events, k));
    }
  }

  lemma ControlValid(p: Program, r: Ref, g: Ref, h: Ref)
    requires IsRef(p, r) && OpAt(p, r) == Control([g, h]) && IsSignal(p, g) && IsSignal(p, h)
    ensures ValidOp(p, r)
  {
  }

  lemma AwaitValid(p: Program, r: Ref, g: Ref)
    requires IsRef(p, r) && OpAt(p, r) == Await([g]) && IsSignal(p, g)
    ensures ValidOp(p, r)
  {
  }

  lemma JoinedSignal(p: Program, b: nat, lowered: seq<Op>, j: nat)
    requires Valid(p) && b < |p.blocks|
    requires var ops := p.blocks[b].ops; ops != [] && EventsOf(b, ops, |ops| - 1) != [] && IsLowered(b, ops, lowered)
    requires j < |EventsOf(b, p.blocks[b].ops, |p.blocks[b].ops| - 1)|
    ensures var at := |p.blocks[b].ops| - 1;
            var events := EventsOf(b, p.blocks[b].ops, at);
            && IsSignal(LoweredProgram(p, b, lowered), events[j])
            && IsSignal(LoweredProgram(p, b, lowered), Joined(b, at, events, j))
  {
    var at := |p.blocks[b].ops| - 1;
    var events := EventsOf(b, p.blocks[b].ops, at);
    EventsOfAll(b, p.blocks[b].ops, at, events[j]);
    SameRefs(p, b, lowered, events[j]);
    if j > 0 {
      LoweredOps(b, p.blocks[b].ops, lowered, at + j - 1);
    }
  }

  /** Every other operation is one of the old program. */
  lemma OldRef(p: Program, b: nat, lowered: seq<Op>, r: Ref) returns (r0: Ref)
    requires b < |p.blocks|
    requires var ops := p.blocks[b].ops; ops != [] && EventsOf(b, ops, |ops| - 1) != [] && IsLowered(b, ops, lowered)
    requires IsRef(LoweredProgram(p, b, lowered), r)
    requires !(r.block == b && |p.blocks[b].ops| - 1 <= r.index < |lowered| - 1)
    ensures r0.block == r.block && IsRef(p, r0) && OpAt(p, r0) == OpAt(LoweredProgram(p, b, lowered), r)
    ensures r0 == r || r0 == Ref(b, |p.blocks[b].ops| - 1)
  {
    r0 := if r.block == b && r.index == |lowered| - 1 then Ref(b, |p.blocks[b].ops| - 1) else r;
    if r.block == b {
      LoweredOps(b, p.blocks[b].ops, lowered, r.index);
    }
  }

  lemma LoweredRefs(p: Program, b: nat, lowered: seq<Op>, r: Ref)
    requires Valid(p) && b < |p.blocks|
    requires var ops := p.blocks[b].ops; ops != [] && EventsOf(b, ops, |ops| - 1) != [] && IsLowered(b, ops, lowered)
    requires IsRef(LoweredProgram(p, b, lowered), r)
    ensures ValidOp(LoweredProgram(p, b, lowered), r)
  {
    var p', at := LoweredProgram(p, b, lowered), |p.blocks[b].ops| - 1;
    if r.block == b && at <= r.index < |lowered| - 1 {
      AddedRefs(p, b, lowered, r);
    } else {
      assert ValidBlock(p, b);
      var r0 := OldRef(p, b, lowered, r);
      hide IsLowered;
      assert ValidOp(p, r0) && (r0 == r || OpAt(p, r0).EndsBlock());
      forall g | g in OpAt(p, r0).WaitsOn() ensures IsSignal(p', g) {
        assert IsSignal(p, g);
        SameRefs(p, b, lowered, g);
      }
    }
  }

  /** What the pass builds from a block of a valid program is a valid program again, with the
      barrier the theorems below speak about. */
  lemma BarrierBuilt(p: Program, b: nat, lowered: seq<Op>)
    requires Valid(p) && b < |p.blocks|
    requires var ops := p.blocks[b].ops; ops != [] && EventsOf(b, ops, |ops| - 1) != [] && IsLowered(b, ops, lowered)
    ensures var p' := LoweredProgram(p, b, lowered);
            var at := |p.blocks[b].ops| - 1;
            Valid(p') && HasBarrier(p', b, at, EventsOf(b, p.blocks[b].ops, at))
  {
    var p' := LoweredProgram(p, b, lowered);
    forall c: nat | c < |p'.blocks| ensures ValidBlock(p', c) {
      LoweredBlocks(p, b, lowered, c);
    }
    forall r | IsRef(p', r) ensures ValidOp(p', r) {
      LoweredRefs(p, b, lowered, r);
    }
    EventsOfPrefix(b, p.blocks[b].ops, lowered, |p.blocks[b].ops| - 1);
  }

  function AwaitRef(b: nat, at: nat, events: seq<Ref>): Ref
    requires events != []
  {
    Ref(b, at + |events| - 1)
  }

  lemma JoinedOp(p: Program, b: nat, at: nat, events: seq<Ref>, j: nat)
    requires Valid(p) && b < |p.blocks| && HasBarrier(p, b, at, events) && j < |events|
    ensures var r := Joined(b, at, events, j);
            && IsRef(p, r) && r.block == b && OpAt(p, r).IsAsync()
            && (j > 0 ==> OpAt(p, r) == Control([Joined(b, at, events, j - 1), events[j]]))
    ensures events[j].block == b && IsRef(p, events[j])
  {
    EventsOfAll(b, p.blocks[b].ops, at, events[j]);
    EventsOfAll(b, p.blocks[b].ops, at, events[0]);
    if j > 0 {
      var chain := p.blocks[b].ops[at..at + |events| - 1];
      assert chain[j - 1] == p.blocks[b].ops[at + j - 1];
    }
  }

  /** A joined signal was never produced more often than any of the events it joins. */
  lemma {:induction false} JoinedAfterEvents(p: Program, t: State, b: nat, at: nat, events: seq<Ref>, j: nat, i: nat)
    requires Valid(p) && Reachable(p, t) && b < |p.blocks| && HasBarrier(p, b, at, events)
    requires i <= j < |events|
    ensures Count(t.valueMap, Joined(b, at, events, j)) <= Count(t.valueMap, events[i])
  {
    if j > 0 {
      JoinedOp(p, b, at, events, j);
      JoinedOp(p, b, at, events, j - 1);
      hide HasBarrier, Reachable, Joined;
      var r := Joined(b, at, events, j);
      ReachableInv(p, t);
      assert SignalOk(p, t, r);
      TokenSafety(p, t, r, Joined(b, at, events, j - 1), 1);
      TokenSafety(p, t, r, events[j], 1);
      if i < j {
        JoinedAfterEvents(p, t, b, at, events, j - 1, i);
      }
    }
  }

  /** The await passes for the k-th time only after every event of the block has completed
      at least k times. */
  lemma AwaitIsBarrier(p: Program, t: State, b: nat, at: nat, events: seq<Ref>, i: nat)
    requires Valid(p) && Reachable(p, t) && b < |p.blocks| && HasBarrier(p, b, at, events)
    requires i < |events|
    ensures Count(t.opMap, AwaitRef(b, at, events)) <= Count(t.valueMap, events[i])
  {
    var n := |events|;
    var await := AwaitRef(b, at, events);
    JoinedOp(p, b, at, events, n - 1);
    assert OpAt(p, await) == Await([Joined(b, at, events, n - 1)]);
    TokenSafety(p, t, await, Joined(b, at, events, n - 1), 1);
    JoinedAfterEvents(p, t, b, at, events, n - 1, i);
  }

  /** ... whichever launch or memcpy of the block it is. */
  lemma AwaitAfterEach(p: Program, t: State, b: nat, at: nat, events: seq<Ref>, k: nat)
    requires Valid(p) && Reachable(p, t) && b < |p.blocks| && HasBarrier(p, b, at, events)
    requires k < at && (p.blocks[b].ops[k].Launch? || p.blocks[b].ops[k].MemCopy?)
    ensures Count(t.opMap, Ref(b, at + |events| - 1)) <= Count(t.valueMap, Ref(b, k))
  {
    EventsOfAll(b, p.blocks[b].ops, at, Ref(b, k));
    var i :| 0 <= i < |events| && events[i] == Ref(b, k);
    AwaitIsBarrier(p, t, b, at, events, i);
  }

  /** Every operation of the chain has been fetched at least k times. */
  ghost predicate ChainFetched(b: nat, at: nat, events: seq<Ref>, s: State, k: nat) {
    forall j :: 1 <= j < |events| ==>
      k <= Count(s.opMap, Joined(b, at, events, j)) + Occurs(s.controlQueue, Joined(b, at, events, j))
  }

  lemma NotWaitingInBlock(p: Program, s: State, o: Ref, g: Ref)
    requires Valid(p) && Typed(p, s) && IsRef(p, o) && IsRef(p, g) && o.block == g.block
    ensures IsWaiting(p, s, o, g) <==> Count(s.opMap, o) >= Count(s.valueMap, g)
  {
    var n := BlockExs(p, o.block);
    var a, c := Count(s.opMap, o), Count(s.valueMap, g);
    if a >= c {
      MulMonotone(n, c, a);
    } else {
      MulMonotone(n, a + 1, c);
      assert n * (a + 1) == n * a + n;
    }
  }

  /** With all events completed, no link of the chain is left behind by a maximal firing. */
  lemma {:induction false} ChainFires(p: Program, s: State, t: State, b: nat, at: nat, events: seq<Ref>, k: nat, j: nat)
    requires Valid(p) && Typed(p, t) && Inv(p, t) && SameTotals(s, t) && NotBehind(s, t) && Quiescent(p, t)
    requires b < |p.blocks| && HasBarrier(p, b, at, events)
    requires ChainFetched(b, at, events, s, k) && j < |events|
    requires forall i :: 0 <= i < |events| ==> k <= Count(s.valueMap, events[i])
    ensures k <= Count(t.valueMap, Joined(b, at, events, j))
  {
    hide HasBarrier, Inv, Typed, Valid, SameTotals, NotBehind, Quiescent;
    JoinedOp(p, b, at, events, j);
    EventsGrow(p, s, t, events[j]);
    if j > 0 {
      JoinedOp(p, b, at, events, j - 1);
      ChainFires(p, s, t, b, at, events, k, j - 1);
      LinkFires(p, s, t, Joined(b, at, events, j), Joined(b, at, events, j - 1), events[j], k);
    }
  }

  /** One scan of the control queue fires the whole chain once all events have completed. */
  lemma ScanFiresChain(p: Program, s: State, b: nat, at: nat, events: seq<Ref>, k: nat, j: nat)
    requires Valid(p) && Inv(p, s) && b < |p.blocks| && HasBarrier(p, b, at, events)
    requires ChainFetched(b, at, events, s, k) && j < |events|
    requires forall i :: 0 <= i < |events| ==> k <= Count(s.valueMap, events[i])
    ensures k <= Count(CheckControlQueue(p, s).valueMap, Joined(b, at, events, j))
  {
    ScanTotals(p, s);
    ChainFires(p, s, CheckControlQueue(p, s), b, at, events, k, j);
  }

  lemma ScanTotals(p: Program, s: State)
    requires Valid(p) && Inv(p, s)
    ensures var t := CheckControlQueue(p, s);
            Inv(p, t) && SameTotals(s, t) && NotBehind(s, t) && Quiescent(p, t)
  {
    var ks := CheckControlFires(p, s, 0);
    FiresForward(p, s, ks, CheckControlQueue(p, s));
    var acts := CheckControlReaches(p, s, 0);
  }

  lemma EventsGrow(p: Program, s: State, t: State, o: Ref)
    requires SameTotals(s, t) && NotBehind(s, t)
    ensures Count(s.valueMap, o) <= Count(t.valueMap, o)
  {
    assert Count(s.valueMap, o) + Occurs(s.controlQueue, o) == Count(t.valueMap, o) + Occurs(t.controlQueue, o);
  }

  /** One link of the chain: with both its signals there, it does not stay in the queue. */
  lemma LinkFires(p: Program, s: State, t: State, r: Ref, g: Ref, h: Ref, k: nat)
    requires Valid(p) && Inv(p, t) && SameTotals(s, t) && Quiescent(p, t)
    requires IsRef(p, r) && OpAt(p, r) == Control([g, h])
    requires IsRef(p, g) && IsRef(p, h) && g.block == h.block == r.block
    requires k <= Count(s.opMap, r) + Occurs(s.controlQueue, r)
    requires k <= Count(t.valueMap, g) && k <= Count(t.valueMap, h)
    ensures k <= Count(t.valueMap, r)
  {
    assert SignalOk(p, t, r) && !Underway(p, t, r);
    assert Blocked(p, t, r) ==> IsWaiting(p, t, r, g) || IsWaiting(p, t, r, h);
    hide Inv, Valid, Blocked, SignalOk, Underway;
    NotWaitingInBlock(p, t, r, g);
    NotWaitingInBlock(p, t, r, h);
    assert k <= Count(t.opMap, r) + Occurs(t.controlQueue, r);
    hide IsWaiting, SameTotals;
  }

  lemma OpensOnlyIf(p: Program, s: State, b: nat, at: nat, events: seq<Ref>, k: nat, i: nat)
    requires Valid(p) && Reachable(p, s) && b < |p.blocks| && HasBarrier(p, b, at, events) && i < |events|
    requires k == Count(s.opMap, AwaitRef(b, at, events))
    ensures IsRef(p, AwaitRef(b, at, events))
    ensures !Blocked(p, CheckControlQueue(p, s), AwaitRef(b, at, events)) ==> k < Count(s.valueMap, events[i])
  {
    AwaitWaits(p, s, b, at, events);
    ScanReachable(p, s);
    hide HasBarrier, CheckControlQueue, Reachable, Blocked;
    JoinedAfterEvents(p, CheckControlQueue(p, s), b, at, events, |events| - 1, i);
    EventUnscanned(p, s, b, at, events, i);
  }

  lemma LastJoined(p: Program, s: State, b: nat, at: nat, events: seq<Ref>, k: nat)
    requires Valid(p) && Inv(p, s) && b < |p.blocks| && HasBarrier(p, b, at, events)
    requires ChainFetched(b, at, events, s, k + 1) && events != []
    requires forall i :: 0 <= i < |events| ==> k < Count(s.valueMap, events[i])
    ensures k < Count(CheckControlQueue(p, s).valueMap, Joined(b, at, events, |events| - 1))
  {
    hide *;
    ScanFiresChain(p, s, b, at, events, k + 1, |events| - 1);
  }

  /** After a scan, an await that has passed k times can pass once more exactly when every
      event of the block has completed more than k times. */
  lemma BarrierOpens(p: Program, s: State, b: nat, at: nat, events: seq<Ref>, k: nat)
    requires Valid(p) && Reachable(p, s) && b < |p.blocks| && HasBarrier(p, b, at, events)
    requires k == Count(s.opMap, AwaitRef(b, at, events)) && ChainFetched(b, at, events, s, k + 1)
    ensures IsRef(p, AwaitRef(b, at, events))
    ensures !Blocked(p, CheckControlQueue(p, s), AwaitRef(b, at, events)) <==>
            forall i :: 0 <= i < |events| ==> k < Count(s.valueMap, events[i])
  {
    AwaitWaits(p, s, b, at, events);
    ReachableInv(p, s);
    forall i: nat | i < |events|
      ensures !Blocked(p, CheckControlQueue(p, s), AwaitRef(b, at, events)) ==> k < Count(s.valueMap, events[i])
    {
      OpensOnlyIf(p, s, b, at, events, k, i);
    }
    if forall i :: 0 <= i < |events| ==> k < Count(s.valueMap, events[i]) {
      LastJoined(p, s, b, at, events, k);
    }
  }

  lemma EventUnscanned(p: Program, s: State, b: nat, at: nat, events: seq<Ref>, i: nat)
    requires Valid(p) && Typed(p, s) && b < |p.blocks| && HasBarrier(p, b, at, events) && i < |events|
    ensures Count(CheckControlQueue(p, s).valueMap, events[i]) == Count(s.valueMap, events[i])
  {
    EventsOfAll(b, p.blocks[b].ops, at, events[i]);
    ScanLeaves(p, s, events[i]);
  }

  lemma AwaitWaits(p: Program, s: State, b: nat, at: nat, events: seq<Ref>)
    requires Valid(p) && Typed(p, s) && b < |p.blocks| && HasBarrier(p, b, at, events)
    ensures IsRef(p, AwaitRef(b, at, events))
    ensures Blocked(p, CheckControlQueue(p, s), AwaitRef(b, at, events)) <==>
            Count(s.opMap, AwaitRef(b, at, events))
            >= Count(CheckControlQueue(p, s).valueMap, Joined(b, at, events, |events| - 1))
  {
    var t, await, g := CheckControlQueue(p, s), AwaitRef(b, at, events), Joined(b, at, events, |events| - 1);
    JoinedOp(p, b, at, events, |events| - 1);
    assert OpAt(p, await) == Await([g]);
    hide HasBarrier;
    NotWaitingInBlock(p, t, await, g);
    ScanLeaves(p, s, await);
    assert g in OpAt(p, await).WaitsOn();
  }

  lemma ScanReachable(p: Program, s: State)
    requires Valid(p) && Reachable(p, s)
    ensures Reachable(p, CheckControlQueue(p, s))
  {
    ReachableInv(p, s);
    var acts :| Reaches(p, Init(p), acts, s);
    var scan := CheckControlReaches(p, s, 0);
    ReachesConcat(p, Init(p), acts, s, scan, CheckControlQueue(p, s));
  }

  /** A scan changes the counts of control operations only. */
  lemma {:induction false} ScanLeavesFrom(p: Program, s: State, k: nat, o: Ref)
    requires Valid(p) && Typed(p, s) && k <= |s.controlQueue| && IsRef(p, o) && !OpAt(p, o).Control?
    ensures Count(CheckControlFrom(p, s, k).opMap, o) == Count(s.opMap, o)
    ensures Count(CheckControlFrom(p, s, k).valueMap, o) == Count(s.valueMap, o)
    decreases |s.controlQueue|, |s.controlQueue| - k
  {
    if k < |s.controlQueue| {
      if Blocked(p, s, s.controlQueue[k]) {
        ScanLeavesFrom(p, s, k + 1, o);
      } else {
        ScanLeavesFrom(p, FireOp(p, s, k), 0, o);
      }
    }
  }

  lemma ScanLeaves(p: Program, s: State, o: Ref)
    requires Valid(p) && Typed(p, s) && IsRef(p, o) && !OpAt(p, o).Control?
    ensures Count(CheckControlQueue(p, s).opMap, o) == Count(s.opMap, o)
    ensures Count(CheckControlQueue(p, s).valueMap, o) == Count(s.valueMap, o)
  {
    ScanLeavesFrom(p, s, 0, o);
  }
}
