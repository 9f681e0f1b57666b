/** EQueue programs as the simulator sees them: a tree of blocks of operations.

    Operations have an identity (the block they stand in and their position), because
    the simulator keys its counters by operation.  Block 0 is the body of the top-level
    function; every other block is the body of one `for` or one `launch` operation.
    Blocks are numbered in the pre-order in which the source walks its regions, so the
    parent of a block always has a smaller number. */
module Programs {
  import opened Arithmetic

  datatype Ref = Ref(block: nat, index: nat)

  /** One operation.  A signal operand is named by the asynchronous operation that
      produces it, that is, after alias resolution. */
  datatype Op =
    | Plain                                         // anything modelled only by its duration
    | Control(signals: seq<Ref>)                    // control_start (no operand) and control_and
    | Launch(device: nat, start: Ref, body: nat)
    | MemCopy(device: nat, signals: seq<Ref>)
    | Await(signals: seq<Ref>)
    | For(lb: int, ub: int, step: int, body: nat)   // constant bounds
    | Yield                                         // last operation of a loop body
    | Return                                        // last operation of a launch or function body
  {
    predicate IsEvent() { Launch? || MemCopy? }
    predicate IsAsync() { Control? || IsEvent() }
    predicate HasBody() { Launch? || For? }
    predicate EndsBlock() { Yield? || Return? }

    /** The signals the operation waits for: a launch looks at its start signal only. */
    function WaitsOn(): seq<Ref> {
      match this
      case Launch(_, start, _) => [start]
      case Control(signals) => signals
      case MemCopy(_, signals) => signals
      case Await(signals) => signals
      case _ => []
    }
  }

  datatype Block = Block(ops: seq<Op>, parent: Ref)

  /** `launchers` counts the host (number 0) and the processors and DMA engines. */
  datatype Program = Program(blocks: seq<Block>, launchers: nat)

  predicate IsRef(p: Program, r: Ref) {
    r.block < |p.blocks| && r.index < |p.blocks[r.block].ops|
  }

  function OpAt(p: Program, r: Ref): Op
    requires IsRef(p, r)
  {
    p.blocks[r.block].ops[r.index]
  }

  predicate IsSignal(p: Program, r: Ref) {
    IsRef(p, r) && OpAt(p, r).IsAsync()
  }

  /** The trip count of a constant-bound loop; not positive when the bounds are not in order. */
  function TripCount(lb: int, ub: int, step: int): (n: int)
    requires step > 0
    ensures n > 0 <==> lb < ub
    ensures lb + (n - 1) * step < ub <= lb + n * step
  {
    (ub - lb + step - 1) / step
  }

  predicate ValidBlock(p: Program, b: nat)
    requires b < |p.blocks|
  {
    var ops := p.blocks[b].ops;
    && 0 < |ops|
    && ops[|ops| - 1].EndsBlock()
    && (forall k :: 0 <= k < |ops| - 1 ==> !ops[k].EndsBlock())
    && (b == 0 ==> ops[|ops| - 1].Return?)
    && (b > 0 ==>
          var q := p.blocks[b].parent;
          && q.block < b && IsRef(p, q)
          && OpAt(p, q).HasBody() && OpAt(p, q).body == b
          && (OpAt(p, q).For? <==> ops[|ops| - 1].Yield?))
  }

  predicate ValidOp(p: Program, r: Ref)
    requires IsRef(p, r)
  {
    var op := OpAt(p, r);
    && (op.HasBody() ==> r.block < op.body < |p.blocks| && p.blocks[op.body].parent == r)
    && (op.For? ==> op.step > 0 && op.lb < op.ub)
    && (op.IsEvent() ==> 0 < op.device < p.launchers)
    && (forall g :: g in op.WaitsOn() ==> IsSignal(p, g))
  }

  ghost predicate Valid(p: Program) {
    && 0 < |p.blocks|
    && 0 < p.launchers
    && (forall b: nat :: b < |p.blocks| ==> ValidBlock(p, b))
    && (forall r {:trigger ValidOp(p, r)} :: IsRef(p, r) ==> ValidOp(p, r))
  }

  function Length(p: Program, b: nat): (n: nat)
    requires Valid(p) && b < |p.blocks|
    ensures n == |p.blocks[b].ops| && n > 0
  {
    assert ValidBlock(p, b);
    |p.blocks[b].ops|
  }

  /** The loop or launch whose body is block `b`. */
  function Parent(p: Program, b: nat): (r: Ref)
    requires Valid(p) && 0 < b < |p.blocks|
    ensures r.block < b && IsRef(p, r)
    ensures OpAt(p, r).HasBody() && OpAt(p, r).body == b
    ensures r.index + 1 < Length(p, r.block)
  {
    assert ValidBlock(p, b);
    var r := p.blocks[b].parent;
    assert ValidBlock(p, r.block) && !OpAt(p, r).EndsBlock();
    r
  }

  predicate IsLoop(p: Program, b: nat)
    requires Valid(p) && b < |p.blocks|
  {
    b > 0 && OpAt(p, Parent(p, b)).For?
  }

  function Trips(p: Program, b: nat): (n: nat)
    requires Valid(p) && b < |p.blocks| && IsLoop(p, b)
    ensures n > 0
  {
    var op := OpAt(p, Parent(p, b));
    assert ValidOp(p, Parent(p, b));
    TripCount(op.lb, op.ub, op.step)
  }

  function YieldOf(p: Program, b: nat): (r: Ref)
    requires Valid(p) && b < |p.blocks|
    ensures IsRef(p, r)
  {
    Ref(b, Length(p, b) - 1)
  }

  /** The launch or function body in whose loops block `b` is nested. */
  function Root(p: Program, b: nat): (r: nat)
    requires Valid(p) && b < |p.blocks|
    ensures r <= b && !IsLoop(p, r)
  {
    if IsLoop(p, b) then Root(p, Parent(p, b).block) else b
  }

  /** How often one execution of its root runs block `b`. */
  function LoopFactor(p: Program, b: nat): (n: nat)
    requires Valid(p) && b < |p.blocks|
    ensures n > 0
  {
    if IsLoop(p, b) then Trips(p, b) * LoopFactor(p, Parent(p, b).block) else 1
  }

  /** How often the whole program runs block `b`: the product of all enclosing trip counts. */
  function BlockExs(p: Program, b: nat): (n: nat)
    requires Valid(p) && b < |p.blocks|
    ensures n > 0
  {
    if b == 0 then 1
    else if IsLoop(p, b) then Trips(p, b) * BlockExs(p, Parent(p, b).block)
    else BlockExs(p, Parent(p, b).block)
  }

  lemma {:induction false} BlockExsFactors(p: Program, b: nat)
    requires Valid(p) && b < |p.blocks|
    ensures BlockExs(p, b) == BlockExs(p, Root(p, b)) * LoopFactor(p, b)
  {
    if IsLoop(p, b) {
      var pb := Parent(p, b).block;
      BlockExsFactors(p, pb);
      MulSwaps(Trips(p, b), BlockExs(p, Root(p, b)), LoopFactor(p, pb));
    }
  }

  /** The source's one-pass table of block execution counts. */
  method BuildExMap(p: Program) returns (blockExs: seq<nat>)
    requires Valid(p)
    ensures |blockExs| == |p.blocks|
    ensures forall b: nat :: b < |p.blocks| ==> blockExs[b] == BlockExs(p, b)
  {
    blockExs := [];
    for b := 0 to |p.blocks|
      invariant |blockExs| == b
      invariant forall c: nat :: c < b ==> blockExs[c] == BlockExs(p, c)
    {
      var exTimes := if IsLoop(p, b) then Trips(p, b) else 1;
      if b > 0 {
        exTimes := exTimes * blockExs[Parent(p, b).block];
      }
      assert exTimes == BlockExs(p, b);
      blockExs := blockExs + [exTimes];
    }
  }

  /** The launcher that runs root `b`: the host, or the device of the launch. */
  function RunsOn(p: Program, b: nat): (i: nat)
    requires Valid(p) && b < |p.blocks| && !IsLoop(p, b)
    ensures i < p.launchers
    ensures i == 0 <==> b == 0
  {
    if b == 0 then 0
    else
      assert ValidOp(p, Parent(p, b));
      OpAt(p, Parent(p, b)).device
  }

  /** The launcher on which an operation is executed: an event runs on its device,
      everything else on the launcher of the surrounding body. */
  function Home(p: Program, r: Ref): (i: nat)
    requires Valid(p) && IsRef(p, r)
    ensures i < p.launchers
  {
    assert ValidOp(p, r);
    if OpAt(p, r).IsEvent() then OpAt(p, r).device else RunsOn(p, Root(p, r.block))
  }

  lemma EventNotOnHost(p: Program, r: Ref)
    requires Valid(p) && IsRef(p, r) && OpAt(p, r).IsEvent()
    ensures 0 < OpAt(p, r).device < p.launchers
  {
    assert ValidOp(p, r);
  }

  /** A counter table whose missing entries read as zero, as a map lookup does in the source. */
  type Tally = map<Ref, nat>

  function Count(m: Tally, r: Ref): nat {
    if r in m then m[r] else 0
  }

  function Bump(m: Tally, r: Ref): Tally {
    m[r := Count(m, r) + 1]
  }
}
