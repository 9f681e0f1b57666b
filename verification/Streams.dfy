/** A connection: a stream with a bandwidth and a schedule of the bits written to it. */
module Streams {

  /** An entry of the ordered schedule: from `cycle` on, `bits` bits may be read. */
  datatype Slot = Slot(cycle: nat, bits: nat)

  /** An ordered map from cycles to bits. */
  ghost predicate Ordered(s: seq<Slot>) {
    && (forall i, j :: 0 <= i < j < |s| ==> s[i].cycle < s[j].cycle)
    && (forall i :: 0 <= i < |s| ==> s[i].bits > 0)
  }

  function Scheduled(s: seq<Slot>): nat {
    if s == [] then 0 else s[0].bits + Scheduled(s[1..])
  }

  function HasCycle(s: seq<Slot>, cycle: nat): bool {
    exists i :: 0 <= i < |s| && s[i].cycle == cycle
  }

  /** Insertion into an ordered map: an existing entry wins. */
  function Insert(s: seq<Slot>, x: Slot): seq<Slot> {
    if s == [] then [x]
    else if x.cycle < s[0].cycle then [x] + s
    else if x.cycle == s[0].cycle then s
    else [s[0]] + Insert(s[1..], x)
  }

  lemma OrderedDrop(s: seq<Slot>, k: nat)
    requires Ordered(s) && k <= |s|
    ensures Ordered(s[k..])
  {
  }

  lemma {:induction false} InsertScheduled(s: seq<Slot>, x: Slot)
    requires Ordered(s)
    ensures Scheduled(Insert(s, x)) == Scheduled(s) + if HasCycle(s, x.cycle) then 0 else x.bits
  {
    if s == [] {
    } else if x.cycle < s[0].cycle {
      assert ([x] + s)[1..] == s;
    } else if x.cycle == s[0].cycle {
      assert HasCycle(s, x.cycle);
    } else {
      OrderedDrop(s, 1);
      InsertScheduled(s[1..], x);
      assert Insert(s, x)[1..] == Insert(s[1..], x);
      HasCycleTail(s, x.cycle);
    }
  }

  lemma HasCycleTail(s: seq<Slot>, cycle: nat)
    requires s != [] && s[0].cycle != cycle
    ensures HasCycle(s, cycle) == HasCycle(s[1..], cycle)
  {
    if HasCycle(s, cycle) {
      var i :| 0 <= i < |s| && s[i].cycle == cycle;
      assert s[1..][i - 1].cycle == cycle;
    }
  }

  lemma InsertOrdered(s: seq<Slot>, x: Slot)
    requires Ordered(s) && x.bits > 0
    ensures Ordered(Insert(s, x))
    ensures Scheduled(Insert(s, x)) == Scheduled(s) + if HasCycle(s, x.cycle) then 0 else x.bits
  {
    InsertScheduled(s, x);
    hide Ordered, Insert, Scheduled, HasCycle;
    var i := 0;
    while i < |s| && s[i].cycle < x.cycle
      invariant i <= |s| && forall j :: 0 <= j < i ==> s[j].cycle < x.cycle
    {
      i := i + 1;
    }
    InsertAt(s, x, i);
    if i == |s| || s[i].cycle != x.cycle {
      OrderedWith(s, x, i);
    }
  }

  lemma OrderedWith(s: seq<Slot>, x: Slot, i: nat)
    requires Ordered(s) && x.bits > 0 && i <= |s|
    requires (i > 0 ==> s[i - 1].cycle < x.cycle) && (i < |s| ==> x.cycle < s[i].cycle)
    ensures Ordered(s[..i] + [x] + s[i..])
  {
    var t := s[..i] + [x] + s[i..];
    assert forall j :: 0 <= j < |t| ==> t[j] == if j < i then s[j] else if j == i then x else s[j - 1];
  }

  lemma {:induction false} InsertAt(s: seq<Slot>, x: Slot, i: nat)
    requires i <= |s| && (forall j :: 0 <= j < i ==> s[j].cycle < x.cycle)
    requires i < |s| ==> x.cycle <= s[i].cycle
    ensures Insert(s, x) == if i == |s| || s[i].cycle != x.cycle then s[..i] + [x] + s[i..] else s
  {
    if i > 0 {
      InsertAt(s[1..], x, i - 1);
      assert s == [s[0]] + s[1..];
      assert s[..i] == [s[0]] + s[1..][..i - 1] && s[i..] == s[1..][i - 1..];
    }
  }

  lemma {:induction false} ScheduledConcat(s: seq<Slot>, t: seq<Slot>)
    ensures Scheduled(s + t) == Scheduled(s) + Scheduled(t)
  {
    if s == [] {
      assert s + t == t;
    } else {
      ScheduledConcat(s[1..], t);
      assert (s + t)[1..] == s[1..] + t;
    }
  }

  // ----- Transmissions on the schedule -----

  function Cycles(bandwidth: nat, bits: nat): nat
    requires bandwidth > 0
  {
    bits / bandwidth
  }

  function Max(a: nat, b: nat): nat {
    if a < b then b else a
  }

  /** The cycle under which a write is entered. */
  function WriteCycle(bandwidth: nat, s: seq<Slot>, cycle: nat, bits: nat): nat
    requires bandwidth > 0
  {
    if s == [] then cycle else Max(cycle, s[|s| - 1].cycle + Cycles(bandwidth, bits))
  }

  function Write(bandwidth: nat, s: seq<Slot>, cycle: nat, bits: nat): seq<Slot>
    requires bandwidth > 0
  {
    Insert(s, Slot(WriteCycle(bandwidth, s, cycle, bits), bits))
  }

  /** The first position whose prefix holds enough bits; |s| when there are too few. */
  function Reach(s: seq<Slot>, bits: nat): (i: nat)
    ensures i <= |s|
  {
    if s == [] then 0
    else if s[0].bits >= bits then 0
    else 1 + Reach(s[1..], bits - s[0].bits)
  }

  lemma {:induction false} ReachPrefix(s: seq<Slot>, bits: nat)
    requires bits > 0
    ensures var i := Reach(s, bits);
            && Scheduled(s[..i]) < bits
            && (i < |s| <==> bits <= Scheduled(s))
            && (i < |s| ==> bits <= Scheduled(s[..i + 1]) && Scheduled(s[..i + 1]) == Scheduled(s[..i]) + s[i].bits)
  {
    var i := Reach(s, bits);
    if i > 0 {
      ReachPrefix(s[1..], bits - s[0].bits);
      assert s[..i][1..] == s[1..][..i - 1];
      if i < |s| {
        assert s[..i + 1][1..] == s[1..][..i];
      }
    } else if s != [] {
      assert s[..1][1..] == [];
    }
  }

  /** The first cycle at which a read of so many bits can succeed. */
  function ReadCycle(bandwidth: nat, s: seq<Slot>, bits: nat): nat
    requires bandwidth > 0 && 0 < bits <= Scheduled(s)
  {
    ReachPrefix(s, bits);
    var i := Reach(s, bits);
    s[i].cycle + Cycles(bandwidth, bits - Scheduled(s[..i]))
  }

  predicate CanRead(bandwidth: nat, s: seq<Slot>, cycle: nat, bits: nat)
    requires bandwidth > 0 && bits > 0
  {
    bits <= Scheduled(s) && ReadCycle(bandwidth, s, bits) <= cycle
  }

  /** What a read takes off the schedule, and the entry it puts back. */
  function Read(bandwidth: nat, s: seq<Slot>, bits: nat): seq<Slot>
    requires bandwidth > 0 && 0 < bits <= Scheduled(s)
  {
    ReachPrefix(s, bits);
    var i := Reach(s, bits);
    var vol := Scheduled(s[..i + 1]);
    if vol == bits then s[i + 1..]
    else Insert(s[i + 1..], Slot(ReadCycle(bandwidth, s, bits), vol - bits))
  }

  // ----- What the schedule becomes -----

  /** A write is entered behind the last entry, as many cycles later as its bits take and no
      earlier than asked for; it is dropped when that is the cycle of the last entry. */
  predicate WrittenTo(bandwidth: nat, s: seq<Slot>, cycle: nat, bits: nat, t: seq<Slot>)
    requires bandwidth > 0
  {
    if s == [] then t == [Slot(cycle, bits)]
    else
      var last := s[|s| - 1].cycle;
      var at := if cycle >= last + bits / bandwidth then cycle else last + bits / bandwidth;
      t == if at == last then s else s + [Slot(at, bits)]
  }

  lemma WriteEffect(bandwidth: nat, s: seq<Slot>, cycle: nat, bits: nat)
    requires bandwidth > 0 && Ordered(s)
    ensures WrittenTo(bandwidth, s, cycle, bits, Write(bandwidth, s, cycle, bits))
  {
    if s != [] {
      var at := WriteCycle(bandwidth, s, cycle, bits);
      InsertAt(s, Slot(at, bits), if at == s[|s| - 1].cycle then |s| - 1 else |s|);
    }
  }

  /** Entry i is the one that completes so many bits. */
  predicate Completes(s: seq<Slot>, bits: nat, i: nat) {
    i < |s| && Scheduled(s[..i]) < bits <= Scheduled(s[..i]) + s[i].bits
  }

  /** The cycle at which that entry has delivered them. */
  function CompletedAt(bandwidth: nat, s: seq<Slot>, bits: nat, i: nat): nat
    requires bandwidth > 0 && Completes(s, bits, i)
  {
    s[i].cycle + (bits - Scheduled(s[..i])) / bandwidth
  }

  /** A read succeeds when an entry completes its bits in time.  Everything up to and with that
      entry goes; what the entry had more is put back at the cycle of the completion, unless
      that is taken. */
  ghost predicate ReadFrom(bandwidth: nat, s: seq<Slot>, cycle: nat, bits: nat, ok: bool, t: seq<Slot>)
    requires bandwidth > 0
  {
    && (ok <==> exists i: nat :: Completes(s, bits, i) && CompletedAt(bandwidth, s, bits, i) <= cycle)
    && (!ok ==> t == s)
    && (ok ==> forall i: nat :: Completes(s, bits, i) ==> RestOf(bandwidth, s, bits, i, t))
  }

  ghost predicate RestOf(bandwidth: nat, s: seq<Slot>, bits: nat, i: nat, t: seq<Slot>)
    requires bandwidth > 0 && Completes(s, bits, i)
  {
    var more := Scheduled(s[..i]) + s[i].bits - bits;
    var at := CompletedAt(bandwidth, s, bits, i);
    && Ordered(t)
    && multiset(t) == multiset(s[i + 1..])
         + if more == 0 || HasCycle(s[i + 1..], at) then multiset{} else multiset{Slot(at, more)}
  }

  lemma {:induction false} CompletesReach(s: seq<Slot>, bits: nat, i: nat)
    requires Completes(s, bits, i)
    ensures i == Reach(s, bits)
  {
    if i > 0 {
      assert s[..i][1..] == s[1..][..i - 1];
      CompletesReach(s[1..], bits - s[0].bits, i - 1);
    }
  }

  lemma {:induction false} InsertContents(s: seq<Slot>, x: Slot)
    requires Ordered(s)
    ensures multiset(Insert(s, x)) == multiset(s) + if HasCycle(s, x.cycle) then multiset{} else multiset{x}
  {
    if s != [] {
      assert s == [s[0]] + s[1..];
      if x.cycle > s[0].cycle {
        OrderedDrop(s, 1);
        InsertContents(s[1..], x);
        HasCycleTail(s, x.cycle);
      }
    }
  }

  lemma ReadEffect(bandwidth: nat, s: seq<Slot>, cycle: nat, bits: nat)
    requires bandwidth > 0 && Ordered(s) && bits > 0
    ensures var ok := CanRead(bandwidth, s, cycle, bits);
            ReadFrom(bandwidth, s, cycle, bits, ok, if ok then Read(bandwidth, s, bits) else s)
  {
    ReachPrefix(s, bits);
    var i := Reach(s, bits);
    forall j: nat | Completes(s, bits, j) ensures j == i {
      CompletesReach(s, bits, j);
    }
    if bits <= Scheduled(s) {
      assert Completes(s, bits, i) && CompletedAt(bandwidth, s, bits, i) == ReadCycle(bandwidth, s, bits);
      ReadLeaves(bandwidth, s, bits, i);
    } else if j: nat :| Completes(s, bits, j) {
      assert false;
    }
  }

  lemma ReadCycleIs(bandwidth: nat, s: seq<Slot>, bits: nat, i: nat)
    requires bandwidth > 0 && 0 < bits <= Scheduled(s) && Completes(s, bits, i)
    ensures i == Reach(s, bits) && Scheduled(s[..i + 1]) == Scheduled(s[..i]) + s[i].bits
    ensures ReadCycle(bandwidth, s, bits) == CompletedAt(bandwidth, s, bits, i)
  {
    CompletesReach(s, bits, i);
    ReadsUpTo(s, bits);
    hide Scheduled, Reach, Completes;
  }

  lemma ReadsUpTo(s: seq<Slot>, bits: nat)
    requires 0 < bits <= Scheduled(s)
    ensures var i := Reach(s, bits); i < |s| && Scheduled(s[..i + 1]) == Scheduled(s[..i]) + s[i].bits
  {
    ReachPrefix(s, bits);
  }

  lemma ReadLeaves(bandwidth: nat, s: seq<Slot>, bits: nat, i: nat)
    requires bandwidth > 0 && Ordered(s) && 0 < bits <= Scheduled(s) && Completes(s, bits, i)
    ensures RestOf(bandwidth, s, bits, i, Read(bandwidth, s, bits))
  {
    ReadCycleIs(bandwidth, s, bits, i);
    OrderedDrop(s, i + 1);
    var rest, more, at := s[i + 1..], Scheduled(s[..i]) + s[i].bits - bits, CompletedAt(bandwidth, s, bits, i);
    hide Completes, CompletedAt, Ordered, HasCycle, Insert, Scheduled, Reach, ReadCycle;
    assert Read(bandwidth, s, bits) == if more == 0 then rest else Insert(rest, Slot(at, more));
    hide Read;
    if more > 0 {
      InsertContents(rest, Slot(at, more));
      InsertOrdered(rest, Slot(at, more));
    }
  }

  // ----- The object -----

  datatype MemOp = WriteOp | ReadOp

  class Connection {
    const bandwidth: nat
    var writeSchedule: seq<Slot>
    var dataTotal: nat

    ghost predicate Valid()
      reads this
    {
      bandwidth > 0 && Ordered(writeSchedule)
    }

    constructor (width: nat)
      requires width > 0
      ensures Valid() && bandwidth == width && writeSchedule == [] && dataTotal == 0
    {
      bandwidth := width;
      writeSchedule := [];
      dataTotal := 0;
    }

    /** Insert an entry unless its cycle is taken. */
    method InsertSlot(x: Slot)
      requires Valid() && x.bits > 0
      modifies this`writeSchedule
      ensures Valid() && writeSchedule == Insert(old(writeSchedule), x)
    {
      InsertOrdered(writeSchedule, x);
      var i := 0;
      while i < |writeSchedule| && writeSchedule[i].cycle < x.cycle
        invariant i <= |writeSchedule|
        invariant forall j :: 0 <= j < i ==> writeSchedule[j].cycle < x.cycle
      {
        i := i + 1;
      }
      InsertAt(writeSchedule, x, i);
      if i == |writeSchedule| || writeSchedule[i].cycle != x.cycle {
        writeSchedule := writeSchedule[..i] + [x] + writeSchedule[i..];
      }
    }

    /** The first slot that completes a prefix of enough bits, and the bits up to and with it. */
    method FindSlot(bits: nat) returns (i: nat, vol: nat)
      requires Valid() && bits > 0
      ensures i == Reach(writeSchedule, bits)
      ensures i < |writeSchedule| ==> vol == Scheduled(writeSchedule[..i + 1])
    {
      i, vol := 0, 0;
      while i < |writeSchedule|
        invariant i <= |writeSchedule| && vol < bits && vol == Scheduled(writeSchedule[..i])
        invariant Reach(writeSchedule, bits) == i + Reach(writeSchedule[i..], bits - vol)
      {
        ScanSlot(writeSchedule, i);
        vol := vol + writeSchedule[i].bits;
        if vol >= bits {
          return;
        }
        i := i + 1;
      }
    }

    method Put(cycle: nat, bits: nat)
      requires Valid() && bits > 0
      modifies this
      ensures Valid() && dataTotal == old(dataTotal) + bits
      ensures writeSchedule == Write(bandwidth, old(writeSchedule), cycle, bits)
      ensures WrittenTo(bandwidth, old(writeSchedule), cycle, bits, writeSchedule)
    {
      WriteEffect(bandwidth, writeSchedule, cycle, bits);
      hide WrittenTo;
      dataTotal := dataTotal + bits;
      var at := cycle;
      if writeSchedule != [] {
        var startTime := writeSchedule[|writeSchedule| - 1].cycle;
        at := Max(cycle, startTime + Cycles(bandwidth, bits));
      }
      InsertSlot(Slot(at, bits));
    }

    method Get(cycle: nat, bits: nat) returns (ok: bool)
      requires Valid() && bits > 0
      modifies this`writeSchedule
      ensures Valid() && ok == CanRead(bandwidth, old(writeSchedule), cycle, bits)
      ensures writeSchedule == if ok then Read(bandwidth, old(writeSchedule), bits) else old(writeSchedule)
      ensures ReadFrom(bandwidth, old(writeSchedule), cycle, bits, ok, writeSchedule)
    {
      ghost var before := writeSchedule;
      ReadEffect(bandwidth, before, cycle, bits);
      ok := TryGet(cycle, bits);
      hide *;
    }

    /** The read itself. */
    method TryGet(cycle: nat, bits: nat) returns (ok: bool)
      requires Valid() && bits > 0
      modifies this`writeSchedule
      ensures Valid() && ok == CanRead(bandwidth, old(writeSchedule), cycle, bits)
      ensures writeSchedule == if ok then Read(bandwidth, old(writeSchedule), bits) else old(writeSchedule)
    {
      hide Scheduled, Reach, Insert;
      ReachPrefix(writeSchedule, bits);
      var i, vol := FindSlot(bits);
      if i == |writeSchedule| {
        return false;
      }
      var prevVol := vol - writeSchedule[i].bits;
      var requiredCycle := writeSchedule[i].cycle + Cycles(bandwidth, bits - prevVol);
      if requiredCycle > cycle {
        return false;
      }
      OrderedDrop(writeSchedule, i + 1);
      writeSchedule := writeSchedule[i + 1..];
      if vol != bits {
        InsertSlot(Slot(requiredCycle, vol - bits));
      }
      return true;
    }

    /** Schedule a write, or try a read; only a refused read returns false. */
    method ScheduleTransmission(cycle: nat, bits: nat, op: MemOp) returns (ok: bool)
      requires Valid() && bits > 0
      modifies this
      ensures Valid()
      ensures ok == (op.WriteOp? || CanRead(bandwidth, old(writeSchedule), cycle, bits))
      ensures dataTotal == old(dataTotal) + if op.WriteOp? then bits else 0
      ensures writeSchedule == Step(bandwidth, old(writeSchedule), Transmission(cycle, bits, op))
      ensures op.WriteOp? ==> ok && WrittenTo(bandwidth, old(writeSchedule), cycle, bits, writeSchedule)
      ensures op.ReadOp? ==> ReadFrom(bandwidth, old(writeSchedule), cycle, bits, ok, writeSchedule)
    {
      if op.WriteOp? {
        Put(cycle, bits);
        ok := true;
      } else {
        ok := Get(cycle, bits);
      }
    }
  }

  lemma ScanSlot(s: seq<Slot>, i: nat)
    requires i < |s|
    ensures Scheduled(s[..i + 1]) == Scheduled(s[..i]) + s[i].bits
    ensures s[i..][0] == s[i] && s[i..][1..] == s[i + 1..]
  {
    assert s[..i + 1] == s[..i] + [s[i]];
    assert [s[i]][1..] == [];
    ScheduledConcat(s[..i], [s[i]]);
  }

  // ----- Conservation -----

  /** A write keeps all its bits, except for a write of less than one cycle's worth that is
      asked for no later than the last scheduled cycle: it is lost entirely. */
  lemma WriteConserves(bandwidth: nat, s: seq<Slot>, cycle: nat, bits: nat)
    requires bandwidth > 0 && Ordered(s) && bits > 0
    ensures Ordered(Write(bandwidth, s, cycle, bits))
    ensures Scheduled(Write(bandwidth, s, cycle, bits))
         == Scheduled(s) + if KeepsWrite(bandwidth, s, cycle, bits) then bits else 0
  {
    var at := WriteCycle(bandwidth, s, cycle, bits);
    InsertOrdered(s, Slot(at, bits));
    if s != [] {
      CyclesZero(bandwidth, bits);
      assert HasCycle(s, at) <==> at == s[|s| - 1].cycle;
    }
  }

  lemma CyclesZero(bandwidth: nat, bits: nat)
    requires bandwidth > 0
    ensures Cycles(bandwidth, bits) == 0 <==> bits < bandwidth
  {
  }

  predicate KeepsWrite(bandwidth: nat, s: seq<Slot>, cycle: nat, bits: nat) {
    s == [] || cycle > s[|s| - 1].cycle || bits >= bandwidth
  }

  /** The bits left over of the last entry a read touches do not meet a later entry. */
  predicate KeepsRest(bandwidth: nat, s: seq<Slot>, bits: nat)
    requires bandwidth > 0 && 0 < bits <= Scheduled(s)
  {
    ReachPrefix(s, bits);
    var i := Reach(s, bits);
    Scheduled(s[..i + 1]) == bits || !HasCycle(s[i + 1..], ReadCycle(bandwidth, s, bits))
  }

  /** A read splits the schedule after the last entry it touches. */
  lemma ReadParts(bandwidth: nat, s: seq<Slot>, bits: nat)
    returns (vol: nat, rest: seq<Slot>, left: Slot)
    requires bandwidth > 0 && Ordered(s) && 0 < bits <= Scheduled(s)
    ensures bits <= vol && Scheduled(s) == vol + Scheduled(rest) && Ordered(rest)
    ensures vol != bits ==> left.bits == vol - bits
    ensures Read(bandwidth, s, bits) == if vol == bits then rest else Insert(rest, left)
    ensures KeepsRest(bandwidth, s, bits) <==> vol == bits || !HasCycle(rest, left.cycle)
  {
    hide Ordered, Scheduled, Reach, HasCycle, Insert, Cycles;
    ReachPrefix(s, bits);
    var i := Reach(s, bits);
    OrderedDrop(s, i + 1);
    vol, rest := Scheduled(s[..i + 1]), s[i + 1..];
    assert s == s[..i + 1] + rest;
    ScheduledConcat(s[..i + 1], rest);
    left := Slot(ReadCycle(bandwidth, s, bits), vol - bits);
  }

  /** A read takes exactly the bits it asked for, unless it loses the rest of the last entry
      it touches. */
  lemma ReadConserves(bandwidth: nat, s: seq<Slot>, bits: nat)
    requires bandwidth > 0 && Ordered(s) && 0 < bits <= Scheduled(s)
    ensures Ordered(Read(bandwidth, s, bits))
    ensures Scheduled(Read(bandwidth, s, bits)) + bits <= Scheduled(s)
    ensures Scheduled(Read(bandwidth, s, bits)) + bits == Scheduled(s) <==> KeepsRest(bandwidth, s, bits)
  {
    hide *;
    var vol, rest, left := ReadParts(bandwidth, s, bits);
    if vol != bits {
      InsertOrdered(rest, left);
    }
  }

  datatype Transmission = Transmission(cycle: nat, bits: nat, op: MemOp)

  predicate Sized(calls: seq<Transmission>) {
    forall i :: 0 <= i < |calls| ==> calls[i].bits > 0
  }

  /** The schedule after a series of calls. */
  function Serve(bandwidth: nat, s: seq<Slot>, calls: seq<Transmission>): seq<Slot>
    requires bandwidth > 0 && Sized(calls)
    decreases |calls|
  {
    if calls == [] then s else Serve(bandwidth, Step(bandwidth, s, calls[0]), calls[1..])
  }

  function Step(bandwidth: nat, s: seq<Slot>, c: Transmission): seq<Slot>
    requires bandwidth > 0 && c.bits > 0
  {
    if c.op.WriteOp? then Write(bandwidth, s, c.cycle, c.bits)
    else if CanRead(bandwidth, s, c.cycle, c.bits) then Read(bandwidth, s, c.bits)
    else s
  }

  function Written(calls: seq<Transmission>): nat {
    if calls == [] then 0
    else (if calls[0].op.WriteOp? then calls[0].bits else 0) + Written(calls[1..])
  }

  /** The bits of the reads that succeed. */
  function ReadOut(bandwidth: nat, s: seq<Slot>, calls: seq<Transmission>): nat
    requires bandwidth > 0 && Sized(calls)
    decreases |calls|
  {
    if calls == [] then 0
    else (if calls[0].op.ReadOp? && CanRead(bandwidth, s, calls[0].cycle, calls[0].bits) then calls[0].bits else 0)
         + ReadOut(bandwidth, Step(bandwidth, s, calls[0]), calls[1..])
  }

  /** No call of the series loses bits. */
  predicate Lossless(bandwidth: nat, s: seq<Slot>, calls: seq<Transmission>)
    requires bandwidth > 0 && Sized(calls)
    decreases |calls|
  {
    calls != [] ==>
      && LosslessCall(bandwidth, s, calls[0])
      && Lossless(bandwidth, Step(bandwidth, s, calls[0]), calls[1..])
  }

  predicate LosslessCall(bandwidth: nat, s: seq<Slot>, c: Transmission)
    requires bandwidth > 0 && c.bits > 0
  {
    if c.op.WriteOp? then KeepsWrite(bandwidth, s, c.cycle, c.bits)
    else CanRead(bandwidth, s, c.cycle, c.bits) ==> KeepsRest(bandwidth, s, c.bits)
  }

  /** Over any series of writes and reads, what is still scheduled and what was read never
      exceed what was written, with equality exactly when no call lost anything. */
  lemma {:induction false} StreamConservation(bandwidth: nat, s: seq<Slot>, calls: seq<Transmission>)
    requires bandwidth > 0 && Ordered(s) && Sized(calls)
    ensures Scheduled(Serve(bandwidth, s, calls)) + ReadOut(bandwidth, s, calls) <= Scheduled(s) + Written(calls)
    ensures Scheduled(Serve(bandwidth, s, calls)) + ReadOut(bandwidth, s, calls) == Scheduled(s) + Written(calls)
            <==> Lossless(bandwidth, s, calls)
    decreases |calls|
  {
    if calls != [] {
      StepConserves(bandwidth, s, calls[0]);
      StreamConservation(bandwidth, Step(bandwidth, s, calls[0]), calls[1..]);
    }
  }

  lemma StepConserves(bandwidth: nat, s: seq<Slot>, c: Transmission)
    requires bandwidth > 0 && Ordered(s) && c.bits > 0
    ensures var s' := Step(bandwidth, s, c);
            var got := if c.op.ReadOp? && CanRead(bandwidth, s, c.cycle, c.bits) then c.bits else 0;
            var put := if c.op.WriteOp? then c.bits else 0;
            && Ordered(s')
            && Scheduled(s') + got <= Scheduled(s) + put
            && (Scheduled(s') + got == Scheduled(s) + put <==> LosslessCall(bandwidth, s, c))
  {
    if c.op.WriteOp? {
      WriteConserves(bandwidth, s, c.cycle, c.bits);
    } else if CanRead(bandwidth, s, c.cycle, c.bits) {
      ReadConserves(bandwidth, s, c.bits);
    }
  }

  /** A stream of bandwidth 8 that holds 16 bits from cycle 5 on loses a 4-bit write. */
  lemma LostWrite()
    ensures Serve(8, [], [Transmission(5, 16, WriteOp), Transmission(0, 4, WriteOp)]) == [Slot(5, 16)]
    ensures Written([Transmission(5, 16, WriteOp), Transmission(0, 4, WriteOp)]) == 20
  {
    var a, b := Transmission(5, 16, WriteOp), Transmission(0, 4, WriteOp);
    assert [a, b][1..] == [b] && [b][1..] == [];
    assert Step(8, [], a) == [Slot(5, 16)];
    assert Step(8, [Slot(5, 16)], b) == [Slot(5, 16)];
  }

  /** ... and one whose last entry is half read loses the other half to the entry behind it. */
  lemma LostRest()
    ensures var calls := [Transmission(5, 16, WriteOp), Transmission(0, 8, WriteOp), Transmission(6, 8, ReadOp)];
            Serve(8, [], calls) == [Slot(6, 8)] && Written(calls) == 24 && ReadOut(8, [], calls) == 8
  {
    var a, b, c := Transmission(5, 16, WriteOp), Transmission(0, 8, WriteOp), Transmission(6, 8, ReadOp);
    var x, y := Slot(5, 16), Slot(6, 8);
    assert [a, b, c][1..] == [b, c] && [b, c][1..] == [c] && [c][1..] == [];
    assert Step(8, [], a) == [x];
    assert [x][1..] == [];
    assert Step(8, [x], b) == [x, y];
    assert [x, y][1..] == [y] && [y][1..] == [] && [x, y][..0] == [] && [x, y][..1] == [x];
    assert CanRead(8, [x, y], 6, 8) && Step(8, [x, y], c) == [y];
    assert ReadOut(8, [], [a, b, c]) == ReadOut(8, [x], [b, c]) == ReadOut(8, [x, y], [c]);
    assert Serve(8, [], [a, b, c]) == Serve(8, [x], [b, c]) == Serve(8, [x, y], [c]);
  }
}
