/** How fast a connection delivers: the limit its bandwidth sets, and when a series of writes
    keeps to it. */
module Rates {
  import opened Arithmetic
  import opened Streams

  // ----- Reads after one write -----

  predicate Positive(sizes: seq<nat>) {
    forall i :: 0 <= i < |sizes| ==> sizes[i] > 0
  }

  predicate Whole(bandwidth: nat, sizes: seq<nat>)
    requires bandwidth > 0
  {
    forall i :: 0 <= i < |sizes| ==> sizes[i] % bandwidth == 0
  }

  function Sum(sizes: seq<nat>): nat {
    if sizes == [] then 0 else sizes[0] + Sum(sizes[1..])
  }

  /** The cycles a series of reads takes one after the other, each rounded down. */
  function SumCycles(bandwidth: nat, sizes: seq<nat>): nat
    requires bandwidth > 0
  {
    if sizes == [] then 0 else Cycles(bandwidth, sizes[0]) + SumCycles(bandwidth, sizes[1..])
  }

  /** Reads of one slot, all at cycles when they succeed. */
  ghost predicate AllSucceed(bandwidth: nat, s: seq<Slot>, cycles: seq<nat>, sizes: seq<nat>)
    requires bandwidth > 0 && |cycles| == |sizes| && Positive(sizes)
    decreases |sizes|
  {
    sizes != [] ==>
      && CanRead(bandwidth, s, cycles[0], sizes[0])
      && AllSucceed(bandwidth, Read(bandwidth, s, sizes[0]), cycles[1..], sizes[1..])
  }

  function ReadAll(bandwidth: nat, s: seq<Slot>, cycles: seq<nat>, sizes: seq<nat>): seq<Slot>
    requires bandwidth > 0 && |cycles| == |sizes| && Positive(sizes)
    requires AllSucceed(bandwidth, s, cycles, sizes)
    decreases |sizes|
  {
    if sizes == [] then s else ReadAll(bandwidth, Read(bandwidth, s, sizes[0]), cycles[1..], sizes[1..])
  }

  lemma ReadOneSlot(bandwidth: nat, x: Slot, bits: nat)
    requires bandwidth > 0 && 0 < bits
    ensures bits <= Scheduled([x]) <==> bits <= x.bits
    ensures bits <= x.bits ==>
              && ReadCycle(bandwidth, [x], bits) == x.cycle + Cycles(bandwidth, bits)
              && Read(bandwidth, [x], bits) ==
                 if bits == x.bits then [] else [Slot(x.cycle + Cycles(bandwidth, bits), x.bits - bits)]
  {
    assert [x][1..] == [] && [x][..0] == [] && [x][..1] == [x];
  }

  lemma SomethingLeft(bandwidth: nat, s: seq<Slot>, cycles: seq<nat>, sizes: seq<nat>)
    requires bandwidth > 0 && |cycles| == |sizes| > 0 && Positive(sizes) && AllSucceed(bandwidth, s, cycles, sizes)
    ensures s != []
  {
  }

  /** After one write, reads that succeed leave the difference, and the last of
      them succeeds no earlier than the cycles of all of them after the write. */
  lemma {:induction false} OneWriteRate(bandwidth: nat, x: Slot, cycles: seq<nat>, sizes: seq<nat>)
    requires bandwidth > 0 && x.bits > 0 && |cycles| == |sizes| > 0 && Positive(sizes)
    requires AllSucceed(bandwidth, [x], cycles, sizes)
    ensures Sum(sizes) <= x.bits
    ensures ReadAll(bandwidth, [x], cycles, sizes)
         == if Sum(sizes) == x.bits then []
            else [Slot(x.cycle + SumCycles(bandwidth, sizes), x.bits - Sum(sizes))]
    ensures x.cycle + SumCycles(bandwidth, sizes) <= cycles[|cycles| - 1]
    decreases |sizes|
  {
    var b := sizes[0];
    ReadOneSlot(bandwidth, x, b);
    if |sizes| > 1 {
      SomethingLeft(bandwidth, Read(bandwidth, [x], b), cycles[1..], sizes[1..]);
      OneWriteRate(bandwidth, Slot(x.cycle + Cycles(bandwidth, b), x.bits - b), cycles[1..], sizes[1..]);
    } else {
      assert sizes[1..] == [];
    }
  }

  /** When all reads are whole multiples of the bandwidth, no more than the bandwidth per
      cycle since the write is ever read. */
  lemma WholeReadsRate(bandwidth: nat, x: Slot, cycles: seq<nat>, sizes: seq<nat>)
    requires bandwidth > 0 && x.bits > 0 && |cycles| == |sizes| > 0
    requires Positive(sizes) && Whole(bandwidth, sizes)
    requires AllSucceed(bandwidth, [x], cycles, sizes)
    ensures x.cycle <= cycles[|cycles| - 1]
    ensures Sum(sizes) <= bandwidth * (cycles[|cycles| - 1] - x.cycle)
  {
    OneWriteRate(bandwidth, x, cycles, sizes);
    WholeCycles(bandwidth, sizes);
    MulMonotone(bandwidth, SumCycles(bandwidth, sizes), cycles[|cycles| - 1] - x.cycle);
  }

  lemma {:induction false} WholeCycles(bandwidth: nat, sizes: seq<nat>)
    requires bandwidth > 0 && Whole(bandwidth, sizes)
    ensures Sum(sizes) == bandwidth * SumCycles(bandwidth, sizes)
  {
    if sizes != [] {
      WholeCycles(bandwidth, sizes[1..]);
      var q, r := Cycles(bandwidth, sizes[0]), SumCycles(bandwidth, sizes[1..]);
      assert sizes[0] == bandwidth * q;
      assert bandwidth * (q + r) == bandwidth * q + bandwidth * r;
    }
  }

  // ----- The bandwidth as a limit on the schedule -----

  /** The stream never delivers faster than its bandwidth, counted from its first entry. */
  ghost predicate RateLimited(bandwidth: nat, s: seq<Slot>)
    requires bandwidth > 0
  {
    s != [] ==> forall bits: nat :: 0 < bits <= Scheduled(s) ==>
      s[0].cycle + Cycles(bandwidth, bits) <= ReadCycle(bandwidth, s, bits)
  }

  /** One cycle more than whole cycles is due when the parts of a cycle in `before` bits and in
      some of the next `bits` make up a whole one. */
  function Carry(bandwidth: nat, before: nat, bits: nat): nat
    requires bandwidth > 0
  {
    if before % bandwidth > 0 && before % bandwidth + bits >= bandwidth then 1 else 0
  }

  /** An entry behind s comes late enough. */
  predicate InPace(bandwidth: nat, s: seq<Slot>, x: Slot)
    requires bandwidth > 0
  {
    s != [] ==>
      s[0].cycle + Cycles(bandwidth, Scheduled(s)) + Carry(bandwidth, Scheduled(s), x.bits) <= x.cycle
  }

  /** A read that takes d bits of an entry with `before` bits in front of it comes in time. */
  predicate DueAt(bandwidth: nat, first: nat, before: nat, cycle: nat, d: nat)
    requires bandwidth > 0
  {
    first + Cycles(bandwidth, before + d) <= cycle + Cycles(bandwidth, d)
  }

  /** All reads that end in one entry come in time exactly when the worst of them does. */
  lemma WorstRead(bandwidth: nat, first: nat, before: nat, cycle: nat, bits: nat)
    requires bandwidth > 0 && bits > 0
    ensures (forall d: nat :: 0 < d <= bits ==> DueAt(bandwidth, first, before, cycle, d))
       <==> first + Cycles(bandwidth, before) + Carry(bandwidth, before, bits) <= cycle
  {
    forall d: nat | 0 < d <= bits
      ensures Cycles(bandwidth, before + d)
           <= Cycles(bandwidth, before) + Cycles(bandwidth, d) + Carry(bandwidth, before, bits)
    {
      DivSum(before, d, bandwidth);
      DivSum(d, 0, bandwidth);
      RemainderAtMost(d, bandwidth);
    }
    var r := before % bandwidth;
    var worst := if Carry(bandwidth, before, bits) == 1 then bandwidth - r else 1;
    DivSum(before, worst, bandwidth);
    if Carry(bandwidth, before, bits) == 1 || bandwidth > 1 {
      DivModUnique(worst, bandwidth, 0, worst);
    } else {
      DivModUnique(worst, bandwidth, 1, 0);
    }
    assert Cycles(bandwidth, before + worst)
        == Cycles(bandwidth, before) + Cycles(bandwidth, worst) + Carry(bandwidth, before, bits);
    assert DueAt(bandwidth, first, before, cycle, worst)
      <==> first + Cycles(bandwidth, before) + Carry(bandwidth, before, bits) <= cycle;
  }

  lemma RemainderAtMost(a: nat, n: nat)
    requires n > 0
    ensures a % n <= a && a % n < n
  {
    assert a == n * (a / n) + a % n;
    MulMonotone(n, 0, a / n);
  }

  /** The bits in front of entry i, and some of its own, are found at entry i. */
  lemma {:induction false} ReachAt(s: seq<Slot>, i: nat, d: nat)
    requires i < |s| && 0 < d <= s[i].bits
    ensures Reach(s, Scheduled(s[..i]) + d) == i && Scheduled(s[..i]) + d <= Scheduled(s)
  {
    if i == 0 {
      assert s[..0] == [];
    } else {
      assert s[..i][1..] == s[1..][..i - 1];
      ReachAt(s[1..], i - 1, d);
    }
  }

  ghost predicate EntryDue(bandwidth: nat, s: seq<Slot>, i: nat)
    requires bandwidth > 0 && i < |s|
  {
    forall d: nat :: 0 < d <= s[i].bits ==> DueAt(bandwidth, s[0].cycle, Scheduled(s[..i]), s[i].cycle, d)
  }

  lemma LimitedEntry(bandwidth: nat, s: seq<Slot>, i: nat)
    requires bandwidth > 0 && RateLimited(bandwidth, s) && i < |s|
    ensures EntryDue(bandwidth, s, i)
  {
    forall d: nat | 0 < d <= s[i].bits ensures DueAt(bandwidth, s[0].cycle, Scheduled(s[..i]), s[i].cycle, d) {
      ReachAt(s, i, d);
      assert s[0].cycle + Cycles(bandwidth, Scheduled(s[..i]) + d) <= ReadCycle(bandwidth, s, Scheduled(s[..i]) + d);
    }
  }

  lemma DueRead(bandwidth: nat, s: seq<Slot>, bits: nat)
    requires bandwidth > 0 && s != [] && 0 < bits <= Scheduled(s)
    requires forall i: nat :: i < |s| ==> EntryDue(bandwidth, s, i)
    ensures s[0].cycle + Cycles(bandwidth, bits) <= ReadCycle(bandwidth, s, bits)
  {
    hide Scheduled, Reach, ReadCycle, Cycles;
    FoundAt(bandwidth, s, bits);
    var i := Reach(s, bits);
    assert EntryDue(bandwidth, s, i);
    assert DueAt(bandwidth, s[0].cycle, Scheduled(s[..i]), s[i].cycle, bits - Scheduled(s[..i]));
  }

  lemma FoundAt(bandwidth: nat, s: seq<Slot>, bits: nat)
    requires bandwidth > 0 && 0 < bits <= Scheduled(s)
    ensures var i := Reach(s, bits);
            && i < |s| && 0 < bits - Scheduled(s[..i]) <= s[i].bits
            && ReadCycle(bandwidth, s, bits) == s[i].cycle + Cycles(bandwidth, bits - Scheduled(s[..i]))
  {
    ReachPrefix(s, bits);
  }

  lemma LimitedEntries(bandwidth: nat, s: seq<Slot>)
    requires bandwidth > 0
    ensures RateLimited(bandwidth, s) <==> forall i: nat :: i < |s| ==> EntryDue(bandwidth, s, i)
  {
    if RateLimited(bandwidth, s) {
      forall i: nat | i < |s| ensures EntryDue(bandwidth, s, i) {
        LimitedEntry(bandwidth, s, i);
      }
    }
    if s != [] && forall i: nat :: i < |s| ==> EntryDue(bandwidth, s, i) {
      forall bits: nat | 0 < bits <= Scheduled(s)
        ensures s[0].cycle + Cycles(bandwidth, bits) <= ReadCycle(bandwidth, s, bits)
      {
        DueRead(bandwidth, s, bits);
      }
    }
  }

  /** A schedule keeps to the bandwidth if and only if every entry comes late enough for the
      bits in front of it, whatever the sizes. */
  lemma RateIff(bandwidth: nat, s: seq<Slot>)
    requires bandwidth > 0 && Ordered(s)
    ensures RateLimited(bandwidth, s) <==> forall i: nat :: i < |s| ==> InPace(bandwidth, s[..i], s[i])
  {
    LimitedEntries(bandwidth, s);
    forall i: nat | i < |s| ensures EntryDue(bandwidth, s, i) <==> InPace(bandwidth, s[..i], s[i]) {
      WorstRead(bandwidth, s[0].cycle, Scheduled(s[..i]), s[i].cycle, s[i].bits);
      if i > 0 {
        assert s[..i][0] == s[0];
      }
    }
  }

  lemma AppendRate(bandwidth: nat, s: seq<Slot>, x: Slot)
    requires bandwidth > 0 && Ordered(s + [x])
    ensures RateLimited(bandwidth, s + [x]) <==> RateLimited(bandwidth, s) && InPace(bandwidth, s, x)
  {
    var t := s + [x];
    assert t[..|s|] == s && t[|s|] == x;
    forall i: nat | i < |s| ensures t[..i] == s[..i] && t[i] == s[i] {
    }
    OrderedPrefix(t, |s|);
    RateIff(bandwidth, s);
    RateIff(bandwidth, t);
  }

  lemma OrderedPrefix(s: seq<Slot>, k: nat)
    requires Ordered(s) && k <= |s|
    ensures Ordered(s[..k])
  {
  }

  // ----- Any series of writes -----

  /** A write goes behind all entries, or is lost. */
  lemma WriteAppends(bandwidth: nat, s: seq<Slot>, cycle: nat, bits: nat)
    requires bandwidth > 0 && Ordered(s) && bits > 0
    ensures Ordered(Write(bandwidth, s, cycle, bits))
    ensures Write(bandwidth, s, cycle, bits)
         == if KeepsWrite(bandwidth, s, cycle, bits) then s + [Slot(WriteCycle(bandwidth, s, cycle, bits), bits)] else s
  {
    var x := Slot(WriteCycle(bandwidth, s, cycle, bits), bits);
    WriteConserves(bandwidth, s, cycle, bits);
    CyclesZero(bandwidth, bits);
    var n := |s|;
    if KeepsWrite(bandwidth, s, cycle, bits) {
      InsertAt(s, x, n);
      assert s[..n] + [x] + s[n..] == s + [x];
    } else {
      InsertAt(s, x, n - 1);
    }
  }

  predicate AllWrites(calls: seq<Transmission>) {
    forall i :: 0 <= i < |calls| ==> calls[i].op.WriteOp?
  }

  /** Every write that is kept is entered late enough. */
  predicate WritesInPace(bandwidth: nat, s: seq<Slot>, calls: seq<Transmission>)
    requires bandwidth > 0 && Sized(calls)
    decreases |calls|
  {
    calls != [] ==>
      var c := calls[0];
      && (KeepsWrite(bandwidth, s, c.cycle, c.bits) ==>
            InPace(bandwidth, s, Slot(WriteCycle(bandwidth, s, c.cycle, c.bits), c.bits)))
      && WritesInPace(bandwidth, Step(bandwidth, s, c), calls[1..])
  }

  /** After any series of writes of any sizes, the schedule keeps to the bandwidth if and only
      if it did before and every write was entered late enough. */
  lemma {:induction false} WritesRate(bandwidth: nat, s: seq<Slot>, calls: seq<Transmission>)
    requires bandwidth > 0 && Ordered(s) && Sized(calls) && AllWrites(calls)
    ensures RateLimited(bandwidth, Serve(bandwidth, s, calls))
       <==> RateLimited(bandwidth, s) && WritesInPace(bandwidth, s, calls)
    decreases |calls|
  {
    if calls != [] {
      var c := calls[0];
      var s' := Step(bandwidth, s, c);
      assert c.op.WriteOp?;
      WriteAppends(bandwidth, s, c.cycle, c.bits);
      if KeepsWrite(bandwidth, s, c.cycle, c.bits) {
        AppendRate(bandwidth, s, Slot(WriteCycle(bandwidth, s, c.cycle, c.bits), c.bits));
      }
      hide RateLimited, Ordered, Write, InPace, WriteCycle;
      WritesRate(bandwidth, s', calls[1..]);
    }
  }

  /** Two writes to an empty stream keep to the bandwidth if and only if the second is lost or
      comes late enough: it is placed by its own size and not by that of the first. */
  lemma TwoWritesRate(bandwidth: nat, c1: nat, b1: nat, c2: nat, b2: nat)
    requires bandwidth > 0 && b1 > 0 && b2 > 0
    ensures RateLimited(bandwidth, Write(bandwidth, Write(bandwidth, [], c1, b1), c2, b2))
       <==> || (c2 <= c1 && b2 < bandwidth)
            || c1 + Cycles(bandwidth, b1) + Carry(bandwidth, b1, b2) <= Max(c2, c1 + Cycles(bandwidth, b2))
  {
    var x := Slot(c1, b1);
    OneSlot(bandwidth, x);
    SecondInPace(bandwidth, x, c2, b2);
    hide *;
    WriteAppends(bandwidth, [x], c2, b2);
    if KeepsWrite(bandwidth, [x], c2, b2) {
      AppendRate(bandwidth, [x], Slot(WriteCycle(bandwidth, [x], c2, b2), b2));
    }
  }

  lemma OneSlot(bandwidth: nat, x: Slot)
    requires bandwidth > 0 && x.bits > 0
    ensures Write(bandwidth, [], x.cycle, x.bits) == [x]
    ensures Ordered([x]) && RateLimited(bandwidth, [x])
  {
    RateIff(bandwidth, [x]);
    assert forall i: nat :: i < |[x]| ==> [x][..i] == [];
  }

  lemma SecondInPace(bandwidth: nat, x: Slot, cycle: nat, bits: nat)
    requires bandwidth > 0
    ensures KeepsWrite(bandwidth, [x], cycle, bits) <==> x.cycle < cycle || bandwidth <= bits
    ensures InPace(bandwidth, [x], Slot(WriteCycle(bandwidth, [x], cycle, bits), bits))
       <==> x.cycle + Cycles(bandwidth, x.bits) + Carry(bandwidth, x.bits, bits)
            <= Max(cycle, x.cycle + Cycles(bandwidth, bits))
  {
    assert [x][1..] == [];
    assert Scheduled([x]) == x.bits;
    hide Cycles, Carry, Max;
  }

  /** When both are whole multiples of the bandwidth, that is when the second is no smaller, or
      is asked for late enough. */
  lemma TwoWholeWrites(bandwidth: nat, c1: nat, b1: nat, c2: nat, b2: nat)
    requires bandwidth > 0 && b1 > 0 && b2 > 0 && b1 % bandwidth == 0 && b2 % bandwidth == 0
    ensures RateLimited(bandwidth, Write(bandwidth, Write(bandwidth, [], c1, b1), c2, b2))
       <==> b1 <= b2 || c1 + Cycles(bandwidth, b1) <= c2
  {
    TwoWritesRate(bandwidth, c1, b1, c2, b2);
    assert Carry(bandwidth, b1, b2) == 0;
    WholeOrder(bandwidth, b1, b2);
    hide RateLimited, Write, Cycles, Carry;
  }

  lemma WholeOrder(n: nat, a: nat, b: nat)
    requires n > 0 && b > 0 && a % n == 0 && b % n == 0
    ensures b >= n && (a <= b <==> Cycles(n, a) <= Cycles(n, b))
  {
    var p, q := a / n, b / n;
    assert a == n * p && b == n * q;
    MulOrder(n, p, q);
    MulOrder(n, 1, q);
    MulOrder(n, q, 0);
  }

  /** A bandwidth of 1 and writes of 10 and 1 bits at cycle 0: all 11 are there at cycle 2. */
  lemma TooFast()
    ensures var s := Write(1, Write(1, [], 0, 10), 0, 1);
            s == [Slot(0, 10), Slot(1, 1)] && Scheduled(s) == 11 && CanRead(1, s, 2, 11)
  {
    var x, y := Slot(0, 10), Slot(1, 1);
    assert Write(1, [], 0, 10) == [x];
    assert [x][1..] == [];
    assert Insert([x], y) == [x, y];
    assert [x, y][1..] == [y] && [y][1..] == [] && [x, y][..1] == [x];
  }

  /** Equal sizes do not help when they are no multiples: with a bandwidth of 8, two writes of
      12 bits at cycle 0 exceed it. */
  lemma PartCyclesTooFast()
    ensures !RateLimited(8, Write(8, Write(8, [], 0, 12), 0, 12))
  {
    TwoWritesRate(8, 0, 12, 0, 12);
  }
}
