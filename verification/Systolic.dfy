/** The systolic-array generator, input- and weight-stationary: how a convolution is folded
    onto the array, and when each processing element sends its partial sum on. */
module Systolic {
  import opened Arithmetic

  datatype Layer = Layer(ifmapHeight: nat, ifmapWidth: nat, filterHeight: nat, filterWidth: nat,
                         channel: nat, numFilter: nat, stride: nat)

  datatype Array = Array(height: nat, width: nat)

  datatype Dataflow = InputStationary | WeightStationary

  predicate ValidLayer(l: Layer) {
    && 0 < l.filterHeight <= l.ifmapHeight && 0 < l.filterWidth <= l.ifmapWidth
    && l.channel > 0 && l.numFilter > 0 && l.stride > 0
  }

  predicate ValidArray(a: Array) {
    a.height > 0 && a.width > 0
  }

  /** The pixels of one channel of the output. */
  function OutputPixels(l: Layer): (e2: nat)
    requires ValidLayer(l)
    ensures e2 > 0
  {
    var eh := (l.ifmapHeight - l.filterHeight + l.stride) / l.stride;
    var ew := (l.ifmapWidth - l.filterWidth + l.stride) / l.stride;
    AtLeastOne(l.ifmapHeight - l.filterHeight, l.stride);
    AtLeastOne(l.ifmapWidth - l.filterWidth, l.stride);
    MulPositive(eh, ew);
    eh * ew
  }

  /** A convolution window at step y along one side lies inside the input. */
  predicate Inside(y: nat, filter: nat, ifmap: nat, stride: nat) {
    y * stride + filter <= ifmap
  }

  /** There is one output pixel for every position of the window inside the input. */
  lemma OutputPositions(l: Layer) returns (eh: nat, ew: nat)
    requires ValidLayer(l)
    ensures forall y: nat :: Inside(y, l.filterHeight, l.ifmapHeight, l.stride) <==> y < eh
    ensures forall x: nat :: Inside(x, l.filterWidth, l.ifmapWidth, l.stride) <==> x < ew
    ensures OutputPixels(l) == eh * ew
  {
    eh := (l.ifmapHeight - l.filterHeight + l.stride) / l.stride;
    ew := (l.ifmapWidth - l.filterWidth + l.stride) / l.stride;
    forall y: nat ensures Inside(y, l.filterHeight, l.ifmapHeight, l.stride) <==> y < eh {
      StepsInside(y, l.ifmapHeight - l.filterHeight, l.stride);
    }
    forall x: nat ensures Inside(x, l.filterWidth, l.ifmapWidth, l.stride) <==> x < ew {
      StepsInside(x, l.ifmapWidth - l.filterWidth, l.stride);
    }
  }

  lemma StepsInside(y: nat, room: nat, stride: nat)
    requires stride > 0
    ensures y * stride <= room <==> y < (room + stride) / stride
  {
    var n := (room + stride) / stride;
    assert room + stride == stride * n + (room + stride) % stride;
    if y < n {
      MulMonotone(stride, y + 1, n);
    } else {
      MulMonotone(stride, n, y);
    }
  }

  lemma AtLeastOne(a: nat, s: nat)
    requires s > 0
    ensures (a + s) / s >= 1
  {
    var q := (a + s) / s;
    assert a + s == s * q + (a + s) % s;
    if q <= 0 {
      MulMonotone(s, q, 0);
      assert false;
    }
  }

  /** The pixels of one convolution window. */
  function WindowPixels(l: Layer): (px: nat)
    requires ValidLayer(l)
    ensures px > 0
  {
    MulPositive(l.filterHeight, l.filterWidth);
    MulPositive(l.filterHeight * l.filterWidth, l.channel);
    l.filterHeight * l.filterWidth * l.channel
  }

  /** What stays in the array, one per column ... */
  function Columns(l: Layer, d: Dataflow): (n: nat)
    requires ValidLayer(l)
    ensures n > 0
  {
    if d.InputStationary? then OutputPixels(l) else l.numFilter
  }

  /** ... and what streams through it. */
  function Steps(l: Layer, d: Dataflow): (n: nat)
    requires ValidLayer(l)
    ensures n > 0
  {
    if d.InputStationary? then l.numFilter else OutputPixels(l)
  }

  // ----- Folds -----

  function CeilDiv(a: nat, b: nat): nat
    requires b > 0
  {
    (a + b - 1) / b
  }

  lemma CeilDivBounds(a: nat, b: nat)
    requires a > 0 && b > 0
    ensures CeilDiv(a, b) > 0
    ensures (CeilDiv(a, b) - 1) * b < a <= CeilDiv(a, b) * b
    ensures a <= b ==> CeilDiv(a, b) == 1
  {
    var q := CeilDiv(a, b);
    assert a + b - 1 == b * q + (a + b - 1) % b;
    assert (q - 1) * b == q * b - b;
    if q <= 0 {
      MulMonotone(b, q, 0);
      assert false;
    }
    if a <= b && q > 1 {
      MulMonotone(b, 2, q);
      assert false;
    }
  }

  /** The share of fold i when `total` items are dealt out `capacity` at a time. */
  function Share(total: nat, capacity: nat, i: nat): nat {
    var left := total - i * capacity;
    if left <= 0 then 0 else if left < capacity then left else capacity
  }

  function Shares(total: nat, capacity: nat, k: nat): nat {
    if k == 0 then 0 else Shares(total, capacity, k - 1) + Share(total, capacity, k - 1)
  }

  lemma {:induction false} SharesSum(total: nat, capacity: nat, k: nat)
    ensures Shares(total, capacity, k) == if k * capacity <= total then k * capacity else total
  {
    if k > 0 {
      SharesSum(total, capacity, k - 1);
      assert k * capacity == (k - 1) * capacity + capacity;
    }
  }

  /** The folds deal out everything, and none of them is empty. */
  lemma AllDealt(total: nat, capacity: nat, i: nat)
    requires total > 0 && capacity > 0
    ensures Shares(total, capacity, CeilDiv(total, capacity)) == total
    ensures i < CeilDiv(total, capacity) ==> 0 < Share(total, capacity, i) <= capacity
  {
    var k := CeilDiv(total, capacity);
    CeilDivBounds(total, capacity);
    SharesSum(total, capacity, k);
    if i < k {
      MulMonotone(capacity, i, k - 1);
    }
  }

  // ----- One fold -----

  datatype Target = Below | Obuffer

  /** The element in row r and column c sends its partial sum on in cycle t. */
  datatype Write = Write(t: nat, r: nat, c: nat, target: Target)

  /** The cycles in which one element sends. */
  function Sends(writes: seq<Write>, r: nat, c: nat): seq<nat> {
    if writes == [] then []
    else
      var n := |writes| - 1;
      Sends(writes[..n], r, c) + if writes[n].r == r && writes[n].c == c then [writes[n].t] else []
  }

  function Consecutive(first: nat, n: nat): (ts: seq<nat>)
    ensures |ts| == n
  {
    seq(n, k requires 0 <= k < n => first + k)
  }

  lemma SendsSnoc(writes: seq<Write>, w: Write, r: nat, c: nat)
    ensures Sends(writes + [w], r, c) == Sends(writes, r, c) + if w.r == r && w.c == c then [w.t] else []
  {
    assert (writes + [w])[..|writes|] == writes;
  }

  /** How many of its cycles an element has behind it before cycle t. */
  function SentBefore(steps: nat, rows: nat, r: nat, c: nat, t: nat): nat
    requires r < rows
  {
    if t <= c + r + 2 then 0
    else if t > c + steps + rows then steps + rows - 1 - r
    else t - (c + r + 2)
  }

  predicate Reached(r0: nat, c0: nat, r: nat, c: nat) {
    r < r0 || (r == r0 && c < c0)
  }

  ghost predicate Progress(writes: seq<Write>, steps: nat, rows: nat, cols: nat, t: nat, r0: nat, c0: nat) {
    forall r: nat, c: nat :: r < rows && c < cols ==>
      Sends(writes, r, c)
      == Consecutive(c + r + 2, SentBefore(steps, rows, r, c, if Reached(r0, c0, r, c) then t + 1 else t))
  }

  ghost predicate WellPlaced(writes: seq<Write>, rows: nat, cols: nat) {
    forall i :: 0 <= i < |writes| ==>
      && writes[i].r < rows && writes[i].c < cols
      && writes[i].target == if writes[i].r + 1 == rows then Obuffer else Below
  }

  predicate InWindow(steps: nat, rows: nat, r: nat, c: nat, t: nat) {
    t > c + r + 1 && t <= c + steps + rows
  }

  function ElementWrites(steps: nat, rows: nat, cols: nat, t: nat, r: nat, c: nat): seq<Write> {
    if InWindow(steps, rows, r, c, t) then [Write(t, r, c, if r + 1 == rows then Obuffer else Below)] else []
  }

  lemma ElementProgress(writes: seq<Write>, steps: nat, rows: nat, cols: nat, t: nat, r: nat, c: nat)
    requires r < rows && c < cols && Progress(writes, steps, rows, cols, t, r, c)
    ensures Progress(writes + ElementWrites(steps, rows, cols, t, r, c), steps, rows, cols, t, r, c + 1)
  {
    var more := ElementWrites(steps, rows, cols, t, r, c);
    forall r': nat, c': nat | r' < rows && c' < cols
      ensures Sends(writes + more, r', c')
           == Consecutive(c' + r' + 2, SentBefore(steps, rows, r', c', if Reached(r, c + 1, r', c') then t + 1 else t))
    {
      if more == [] {
        assert writes + more == writes;
      } else {
        SendsSnoc(writes, more[0], r', c');
      }
    }
  }

  ghost predicate InTimeOrder(writes: seq<Write>, t: nat) {
    && (forall i, j :: 0 <= i < j < |writes| ==> writes[i].t <= writes[j].t)
    && (forall i :: 0 <= i < |writes| ==> writes[i].t <= t)
  }

  /** What holds of the writes up to element r, c of cycle t. */
  ghost predicate Written(writes: seq<Write>, steps: nat, rows: nat, cols: nat, t: nat, r: nat, c: nat) {
    WellPlaced(writes, rows, cols) && InTimeOrder(writes, t) && Progress(writes, steps, rows, cols, t, r, c)
  }

  lemma NextElement(writes: seq<Write>, steps: nat, rows: nat, cols: nat, t: nat, r: nat, c: nat)
    requires r < rows && c < cols && Written(writes, steps, rows, cols, t, r, c)
    ensures var more := ElementWrites(steps, rows, cols, t, r, c);
            && Written(writes + more, steps, rows, cols, t, r, c + 1)
            && more == if t > c + r + 1 && t <= c + steps + rows
                       then [Write(t, r, c, if r != rows - 1 then Below else Obuffer)] else []
  {
    ElementProgress(writes, steps, rows, cols, t, r, c);
    hide Progress;
  }

  lemma NextRow(writes: seq<Write>, steps: nat, rows: nat, cols: nat, t: nat, r: nat)
    requires r < rows && Written(writes, steps, rows, cols, t, r, cols)
    ensures Written(writes, steps, rows, cols, t, r + 1, 0)
  {
  }

  lemma NextCycle(writes: seq<Write>, steps: nat, rows: nat, cols: nat, t: nat)
    requires Written(writes, steps, rows, cols, t, rows, 0)
    ensures Written(writes, steps, rows, cols, t + 1, 0, 0)
  {
  }

  lemma FoldDone(writes: seq<Write>, steps: nat, rows: nat, cols: nat)
    requires steps > 0 && Written(writes, steps, rows, cols, steps + rows + cols, 0, 0)
    ensures WellPlaced(writes, rows, cols)
    ensures forall i, j :: 0 <= i < j < |writes| ==> writes[i].t <= writes[j].t
    ensures forall r: nat, c: nat :: r < rows && c < cols ==>
              Sends(writes, r, c) == Consecutive(c + r + 2, steps + rows - 1 - r)
  {
  }

  /** All cycles of one fold, element by element.  Whether an element is in the last column
      only decides where its input goes, which is not modelled. */
  method RunFold(steps: nat, rows: nat, cols: nat) returns (writes: seq<Write>)
    requires steps > 0 && rows > 0 && cols > 0
    ensures WellPlaced(writes, rows, cols)
    ensures forall i, j :: 0 <= i < j < |writes| ==> writes[i].t <= writes[j].t
    ensures forall r: nat, c: nat :: r < rows && c < cols ==>
              Sends(writes, r, c) == Consecutive(c + r + 2, steps + rows - 1 - r)
  {
    writes := [];
    assert Written(writes, steps, rows, cols, 0, 0, 0);
    hide *;
    for t := 0 to steps + rows + cols
      invariant Written(writes, steps, rows, cols, t, 0, 0)
    {
      for r := 0 to rows
        invariant Written(writes, steps, rows, cols, t, r, 0)
      {
        for c := 0 to cols
          invariant Written(writes, steps, rows, cols, t, r, c)
        {
          NextElement(writes, steps, rows, cols, t, r, c);
          if t > c + r + 1 && t <= c + steps + rows {
            if r != rows - 1 {
              writes := writes + [Write(t, r, c, Below)];
            } else {
              writes := writes + [Write(t, r, c, Obuffer)];
            }
          } else {
            assert writes + [] == writes;
          }
        }
        NextRow(writes, steps, rows, cols, t, r);
      }
      NextCycle(writes, steps, rows, cols, t);
    }
    FoldDone(writes, steps, rows, cols);
  }

  function Outputs(writes: seq<Write>): nat {
    if writes == [] then 0
    else Outputs(writes[..|writes| - 1]) + if writes[|writes| - 1].target.Obuffer? then 1 else 0
  }

  /** The writes of the first k columns of a row. */
  function RowSends(writes: seq<Write>, r: nat, k: nat): nat {
    if k == 0 then 0 else RowSends(writes, r, k - 1) + |Sends(writes, r, k - 1)|
  }

  lemma {:induction false} RowSendsSnoc(writes: seq<Write>, w: Write, r: nat, k: nat)
    ensures RowSends(writes + [w], r, k) == RowSends(writes, r, k) + if w.r == r && w.c < k then 1 else 0
  {
    if k > 0 {
      RowSendsSnoc(writes, w, r, k - 1);
      SendsSnoc(writes, w, r, k - 1);
    }
  }

  lemma {:induction false} NoSends(r: nat, k: nat)
    ensures RowSends([], r, k) == 0
  {
    if k > 0 {
      NoSends(r, k - 1);
    }
  }

  /** Outputs are what the elements of the last row send. */
  lemma {:induction false} OutputsAreLastRow(writes: seq<Write>, rows: nat, cols: nat)
    requires rows > 0 && WellPlaced(writes, rows, cols)
    ensures Outputs(writes) == RowSends(writes, rows - 1, cols)
  {
    if writes == [] {
      NoSends(rows - 1, cols);
    } else {
      var n := |writes| - 1;
      OutputsAreLastRow(writes[..n], rows, cols);
      RowSendsSnoc(writes[..n], writes[n], rows - 1, cols);
      assert writes == writes[..n] + [writes[n]];
    }
  }

  lemma {:induction false} RowSendsSum(writes: seq<Write>, r: nat, k: nat, each: nat)
    requires forall c: nat :: c < k ==> |Sends(writes, r, c)| == each
    ensures RowSends(writes, r, k) == each * k
  {
    if k > 0 {
      RowSendsSum(writes, r, k - 1, each);
    }
  }

  // ----- All folds -----

  datatype Fold = Fold(v: nat, h: nat, rows: nat, cols: nat, writes: seq<Write>)

  /** Every element of the fold sends in consecutive cycles, each row one cycle after the row
      above and each column one after its left neighbour; a row sends once more than the row
      below, and the last row sends `steps` outputs. */
  ghost predicate Streamed(f: Fold, steps: nat) {
    && f.rows > 0 && WellPlaced(f.writes, f.rows, f.cols)
    && forall r: nat, c: nat :: r < f.rows && c < f.cols ==>
         Sends(f.writes, r, c) == Consecutive(c + r + 2, steps + f.rows - 1 - r)
  }

  function ColumnOutputs(f: Fold, c: nat): seq<nat>
    requires f.rows > 0
  {
    Sends(f.writes, f.rows - 1, c)
  }

  /** Each column of the last row writes the output buffer exactly `steps` times in a fold. */
  lemma FoldOutputs(f: Fold, steps: nat)
    requires Streamed(f, steps)
    ensures forall c: nat :: c < f.cols ==> |ColumnOutputs(f, c)| == steps
    ensures Outputs(f.writes) == steps * f.cols
  {
    var r := f.rows - 1;
    forall c: nat | c < f.cols ensures |ColumnOutputs(f, c)| == |Sends(f.writes, r, c)| == steps {
      assert Sends(f.writes, r, c) == Consecutive(c + r + 2, steps + f.rows - 1 - r);
    }
    OutputsAreLastRow(f.writes, f.rows, f.cols);
    RowSendsSum(f.writes, f.rows - 1, f.cols, steps);
  }

  function TotalOutputs(folds: seq<Fold>): nat {
    if folds == [] then 0 else TotalOutputs(folds[..|folds| - 1]) + Outputs(folds[|folds| - 1].writes)
  }

  lemma TotalSnoc(folds: seq<Fold>, f: Fold)
    ensures TotalOutputs(folds + [f]) == TotalOutputs(folds) + Outputs(f.writes)
  {
    assert (folds + [f])[..|folds|] == folds;
  }

  lemma {:induction false} TotalConcat(a: seq<Fold>, b: seq<Fold>)
    ensures TotalOutputs(a + b) == TotalOutputs(a) + TotalOutputs(b)
  {
    if b == [] {
      assert a + b == a;
    } else {
      var b', x := b[..|b| - 1], b[|b| - 1];
      assert b == b' + [x] && a + b == (a + b') + [x];
      hide TotalOutputs, Outputs;
      TotalConcat(a, b');
      TotalSnoc(a + b', x);
      TotalSnoc(b', x);
    }
  }

  /** How many columns a vertical fold can take: several windows share a tall array. */
  function ColumnCapacity(l: Layer, a: Array): (cap: nat)
    requires ValidLayer(l) && ValidArray(a)
    ensures cap > 0
  {
    var n := if a.height < WindowPixels(l) then 1 else a.height / WindowPixels(l);
    assert n > 0 by {
      if a.height >= WindowPixels(l) { AtLeastOne(a.height - WindowPixels(l), WindowPixels(l)); }
    }
    MulPositive(n, a.width);
    n * a.width
  }

  function HorizontalFolds(l: Layer, a: Array): nat
    requires ValidLayer(l) && ValidArray(a)
  {
    CeilDiv(WindowPixels(l), a.height)
  }

  ghost predicate FoldOk(l: Layer, a: Array, d: Dataflow, f: Fold)
    requires ValidLayer(l) && ValidArray(a)
  {
    && f.cols == Share(Columns(l, d), ColumnCapacity(l, a), f.v) > 0
    && f.rows == Share(WindowPixels(l), a.height, f.h) > 0
    && Streamed(f, Steps(l, d))
  }

  ghost predicate FoldsOk(l: Layer, a: Array, d: Dataflow, folds: seq<Fold>)
    requires ValidLayer(l) && ValidArray(a)
  {
    forall k :: 0 <= k < |folds| ==> FoldOk(l, a, d, folds[k])
  }

  /** Fold k is vertical fold k / h and horizontal fold k % h. */
  ghost predicate InSequence(folds: seq<Fold>, first: nat, h: nat) {
    forall k :: 0 <= k < |folds| ==> folds[k].h < h && Number(folds[k], h) - first == k
  }

  function Number(f: Fold, h: nat): nat {
    f.v * h + f.h
  }

  /** The horizontal folds of one vertical fold. */
  method FoldRows(l: Layer, a: Array, d: Dataflow, v: nat, cols: nat, numHFold: nat) returns (folds: seq<Fold>)
    requires ValidLayer(l) && ValidArray(a) && numHFold == HorizontalFolds(l, a)
    requires cols == Share(Columns(l, d), ColumnCapacity(l, a), v) > 0
    ensures FoldsOk(l, a, d, folds) && |folds| == numHFold && InSequence(folds, v * numHFold, numHFold)
    ensures TotalOutputs(folds) == numHFold * (Steps(l, d) * cols)
  {
    var px, steps := WindowPixels(l), Steps(l, d);
    hide Share, Shares, CeilDiv, WindowPixels, Steps, Columns, ColumnCapacity;
    folds := [];
    var remH: int := px;
    SharesSum(px, a.height, 0);
    assert numHFold == CeilDiv(px, a.height) && TotalOutputs(folds) == 0;
    for j := 0 to numHFold
      invariant remH == px - Shares(px, a.height, j)
      invariant |folds| == j && FoldsOk(l, a, d, folds) && InSequence(folds, v * numHFold, numHFold)
      invariant TotalOutputs(folds) == j * (steps * cols)
    {
      AllDealt(px, a.height, j);
      NextShare(px, a.height, j);
      var rowThisFold := if remH < a.height then remH else a.height;
      remH := remH - rowThisFold;
      var writes := RunFold(steps, rowThisFold, cols);
      var fold := Fold(v, j, rowThisFold, cols, writes);
      assert Streamed(fold, steps);
      assert Number(fold, numHFold) == v * numHFold + |folds|;
      hide *;
      FoldOutputs(fold, steps);
      TotalSnoc(folds, fold);
      assert FoldOk(l, a, d, fold) by { IsFold(l, a, d, fold); }
      NextFold(l, a, d, folds, fold, v * numHFold, numHFold);
      MulDistributes(j, 1, steps * cols);
      folds := folds + [fold];
    }
  }

  lemma IsFold(l: Layer, a: Array, d: Dataflow, f: Fold)
    requires ValidLayer(l) && ValidArray(a)
    requires f.cols == Share(Columns(l, d), ColumnCapacity(l, a), f.v) > 0
    requires f.rows == Share(WindowPixels(l), a.height, f.h) > 0 && Streamed(f, Steps(l, d))
    ensures FoldOk(l, a, d, f)
  {
  }

  lemma NextFold(l: Layer, a: Array, d: Dataflow, folds: seq<Fold>, f: Fold, first: nat, h: nat)
    requires ValidLayer(l) && ValidArray(a) && FoldsOk(l, a, d, folds) && FoldOk(l, a, d, f)
    requires InSequence(folds, first, h) && f.h < h && Number(f, h) == first + |folds|
    ensures FoldsOk(l, a, d, folds + [f]) && InSequence(folds + [f], first, h)
  {
  }

  /** The remainder carried along is what the shares dealt out so far leave. */
  lemma NextShare(total: nat, capacity: nat, i: nat)
    requires total > 0 && capacity > 0 && i < CeilDiv(total, capacity)
    ensures var left := total - Shares(total, capacity, i);
            && Share(total, capacity, i) == (if left < capacity then left else capacity)
            && Shares(total, capacity, i + 1) == Shares(total, capacity, i) + Share(total, capacity, i)
  {
    SharesSum(total, capacity, i);
    AllDealt(total, capacity, i);
  }

  /** The generator: all folds in order, with the remainders carried along. */
  method Generate(l: Layer, a: Array, d: Dataflow) returns (folds: seq<Fold>)
    requires ValidLayer(l) && ValidArray(a)
    ensures FoldsOk(l, a, d, folds) && InSequence(folds, 0, HorizontalFolds(l, a))
    ensures |folds| == CeilDiv(Columns(l, d), ColumnCapacity(l, a)) * HorizontalFolds(l, a)
    ensures TotalOutputs(folds) == HorizontalFolds(l, a) * (OutputPixels(l) * l.numFilter)
    ensures AllColumns(folds) == if d.InputStationary? then OutputPixels(l) else l.numFilter
    ensures AllRows(folds) == l.filterHeight * l.filterWidth * l.channel
  {
    hide *;
    Configuration(l, a, d);
    var px, steps := WindowPixels(l), Steps(l, d);
    var numHFold, maxParallelConv := 1, 1;
    if a.height < px {
      numHFold := CeilDiv(px, a.height);
    } else {
      maxParallelConv := a.height / px;
    }
    var maxCols := maxParallelConv * a.width;
    var columns := Columns(l, d);
    var numVFold := CeilDiv(columns, maxCols);
    var remainingCols: int := columns;
    folds := [];
    NoFolds(l, a, d, columns, maxCols);
    for i := 0 to numVFold
      invariant remainingCols == columns - Shares(columns, maxCols, i)
      invariant |folds| == i * numHFold && FoldsOk(l, a, d, folds) && InSequence(folds, 0, numHFold)
      invariant TotalOutputs(folds) == numHFold * (steps * Shares(columns, maxCols, i))
    {
      AllDealt(columns, maxCols, i);
      NextShare(columns, maxCols, i);
      var colThisFold := if remainingCols < maxCols then remainingCols else maxCols;
      remainingCols := remainingCols - colThisFold;
      var more := FoldRows(l, a, d, i, colThisFold, numHFold);
      TotalConcat(folds, more);
      MulDistributes(Shares(columns, maxCols, i), colThisFold, steps);
      MulDistributes(steps * Shares(columns, maxCols, i), steps * colThisFold, numHFold);
      AppendFolds(l, a, d, folds, more, numHFold);
      MulDistributes(i, 1, numHFold);
      folds := folds + more;
    }
    AllDealt(columns, maxCols, 0);
    EverythingDealt(l, a, d, folds);
  }

  /** The columns of all vertical folds, and the rows of all horizontal ones. */
  function AllColumns(folds: seq<Fold>): nat {
    if folds == [] then 0
    else AllColumns(folds[..|folds| - 1]) + if folds[|folds| - 1].h == 0 then folds[|folds| - 1].cols else 0
  }

  function AllRows(folds: seq<Fold>): nat {
    if folds == [] then 0
    else AllRows(folds[..|folds| - 1]) + if folds[|folds| - 1].v == 0 then folds[|folds| - 1].rows else 0
  }

  lemma {:induction false} ColumnsSoFar(l: Layer, a: Array, d: Dataflow, folds: seq<Fold>, h: nat)
    requires ValidLayer(l) && ValidArray(a) && FoldsOk(l, a, d, folds)
    requires InSequence(folds, 0, h) && folds != []
    ensures AllColumns(folds) == Shares(Columns(l, d), ColumnCapacity(l, a), folds[|folds| - 1].v + 1)
  {
    var n := |folds| - 1;
    var last := folds[n];
    assert FoldOk(l, a, d, last);
    if n == 0 {
      NumberAt(last, h, 0, 0);
      assert Shares(Columns(l, d), ColumnCapacity(l, a), 0) == 0 && AllColumns(folds[..0]) == 0;
    } else {
      ColumnsSoFar(l, a, d, folds[..n], h);
      NextNumber(folds[n - 1], last, h);
    }
  }

  lemma NextNumber(f: Fold, g: Fold, h: nat)
    requires f.h < h && g.h < h && Number(g, h) == Number(f, h) + 1
    ensures if g.h == 0 then g.v == f.v + 1 else g.v == f.v
  {
    if g.v > f.v + 1 {
      MulMonotone(h, f.v + 2, g.v);
    } else if g.v < f.v {
      MulMonotone(h, g.v + 1, f.v);
    }
  }

  lemma NumberAt(f: Fold, h: nat, v: nat, j: nat)
    requires f.h < h && j < h && Number(f, h) == v * h + j
    ensures f.v == v && f.h == j
  {
    if f.v > v {
      MulMonotone(h, v + 1, f.v);
    } else if f.v < v {
      MulMonotone(h, f.v + 1, v);
    }
  }

  lemma NotInFirst(f: Fold, h: nat)
    requires f.h < h <= Number(f, h)
    ensures f.v > 0
  {
  }

  lemma {:induction false} RowsSoFar(l: Layer, a: Array, d: Dataflow, folds: seq<Fold>, h: nat)
    requires ValidLayer(l) && ValidArray(a) && FoldsOk(l, a, d, folds) && InSequence(folds, 0, h)
    ensures AllRows(folds) == Shares(WindowPixels(l), a.height, if |folds| < h then |folds| else h)
  {
    if folds != [] {
      var n := |folds| - 1;
      var last := folds[n];
      assert FoldOk(l, a, d, last);
      RowsSoFar(l, a, d, folds[..n], h);
      if n < h {
        NumberAt(last, h, 0, n);
      } else {
        NotInFirst(last, h);
      }
    }
  }

  /** An input-stationary array holds one output pixel per column and streams the filters, a
      weight-stationary one holds one filter per column and streams the output pixels; the
      vertical folds take up all columns between them, the horizontal folds all pixels of the
      window in all channels, and every column of a fold's last row sends once per step. */
  lemma EverythingDealt(l: Layer, a: Array, d: Dataflow, folds: seq<Fold>)
    requires ValidLayer(l) && ValidArray(a) && FoldsOk(l, a, d, folds)
    requires InSequence(folds, 0, HorizontalFolds(l, a))
    requires |folds| == CeilDiv(Columns(l, d), ColumnCapacity(l, a)) * HorizontalFolds(l, a)
    ensures AllColumns(folds) == if d.InputStationary? then OutputPixels(l) else l.numFilter
    ensures AllRows(folds) == l.filterHeight * l.filterWidth * l.channel
    ensures forall k, c: nat :: 0 <= k < |folds| && c < folds[k].cols ==>
              && folds[k].rows > 0
              && |ColumnOutputs(folds[k], c)| == (if d.InputStationary? then l.numFilter else OutputPixels(l))
  {
    var columns, cap, h := Columns(l, d), ColumnCapacity(l, a), HorizontalFolds(l, a);
    var v := CeilDiv(columns, cap);
    CeilDivBounds(columns, cap);
    CeilDivBounds(WindowPixels(l), a.height);
    AllDealt(columns, cap, 0);
    AllDealt(WindowPixels(l), a.height, 0);
    MulMonotone(h, 1, v);
    RowsSoFar(l, a, d, folds, h);
    ColumnsSoFar(l, a, d, folds, h);
    LastFold(folds, v, h);
    forall k, c: nat | 0 <= k < |folds| && c < folds[k].cols
      ensures folds[k].rows > 0
      ensures |ColumnOutputs(folds[k], c)| == if d.InputStationary? then l.numFilter else OutputPixels(l)
    {
      assert FoldOk(l, a, d, folds[k]);
      FoldOutputs(folds[k], Steps(l, d));
    }
  }

  lemma LastFold(folds: seq<Fold>, v: nat, h: nat)
    requires v > 0 && h > 0 && |folds| == v * h > 0 && InSequence(folds, 0, h)
    ensures folds[|folds| - 1].v == v - 1
  {
    assert |folds| - 1 == (v - 1) * h + (h - 1);
    NumberAt(folds[|folds| - 1], h, v - 1, h - 1);
  }

  lemma Configuration(l: Layer, a: Array, d: Dataflow)
    requires ValidLayer(l) && ValidArray(a)
    ensures a.height > 0 && WindowPixels(l) > 0 && Columns(l, d) > 0
    ensures var px := WindowPixels(l);
            && HorizontalFolds(l, a) == (if a.height < px then CeilDiv(px, a.height) else 1)
            && ColumnCapacity(l, a) == (if a.height < px then 1 else a.height / px) * a.width > 0
    ensures Steps(l, d) * Columns(l, d) == OutputPixels(l) * l.numFilter
  {
    CeilDivBounds(WindowPixels(l), a.height);
  }

  lemma NoFolds(l: Layer, a: Array, d: Dataflow, columns: nat, maxCols: nat)
    requires ValidLayer(l) && ValidArray(a)
    ensures FoldsOk(l, a, d, []) && TotalOutputs([]) == 0 && Shares(columns, maxCols, 0) == 0
    ensures forall h: nat :: InSequence([], 0, h)
  {
  }

  lemma AppendFolds(l: Layer, a: Array, d: Dataflow, folds: seq<Fold>, more: seq<Fold>, h: nat)
    requires ValidLayer(l) && ValidArray(a) && FoldsOk(l, a, d, folds) && FoldsOk(l, a, d, more)
    requires InSequence(folds, 0, h) && InSequence(more, |folds|, h)
    ensures FoldsOk(l, a, d, folds + more) && InSequence(folds + more, 0, h)
  {
  }

  ghost predicate AllFit(total: nat, capacity: nat, width: nat)
    requires capacity > 0
  {
    forall v: nat :: v < CeilDiv(total, capacity) ==> Share(total, capacity, v) <= width
  }

  /** Every processing element a fold uses exists, in every fold, if and only if windows do not
      share the array's height, or all columns fit side by side anyway. */
  lemma FoldsFitArray(l: Layer, a: Array, d: Dataflow)
    requires ValidLayer(l) && ValidArray(a)
    ensures AllFit(Columns(l, d), ColumnCapacity(l, a), a.width)
            <==> a.height < 2 * WindowPixels(l) || Columns(l, d) <= a.width
  {
    var px, columns, cap := WindowPixels(l), Columns(l, d), ColumnCapacity(l, a);
    CapacityShared(l, a);
    hide WindowPixels, Columns, ColumnCapacity;
    forall v: nat | v < CeilDiv(columns, cap) ensures Share(columns, cap, v) <= cap && Share(columns, cap, v) <= columns {
      AllDealt(columns, cap, v);
    }
    CeilDivBounds(columns, cap);
    assert Share(columns, cap, 0) == if columns < cap then columns else cap;
  }

  lemma CapacityShared(l: Layer, a: Array)
    requires ValidLayer(l) && ValidArray(a)
    ensures if a.height < 2 * WindowPixels(l) then ColumnCapacity(l, a) == a.width
            else ColumnCapacity(l, a) > a.width
  {
    var px := WindowPixels(l);
    if a.height >= px {
      var n := a.height / px;
      assert a.height == px * n + a.height % px;
      if a.height < 2 * px {
        if n >= 2 {
          MulMonotone(px, 2, n);
          assert false;
        }
      } else if n < 2 {
        MulMonotone(px, n, 1);
        assert false;
      }
      MulMonotone(a.width, 1, n);
      if n >= 2 {
        MulMonotone(a.width, 2, n);
      }
    }
  }

  /** Two filters of one pixel on an array of two rows and one column: both would share the one
      column's height, and the fold asks for two columns. */
  lemma TooManyColumns()
    ensures var l, a := Layer(1, 1, 1, 1, 1, 2, 1), Array(2, 1);
            && ValidLayer(l) && ValidArray(a)
            && !AllFit(Columns(l, WeightStationary), ColumnCapacity(l, a), a.width)
            && Share(Columns(l, WeightStationary), ColumnCapacity(l, a), 0) == 2 > a.width
  {
    var l, a := Layer(1, 1, 1, 1, 1, 2, 1), Array(2, 1);
    assert WindowPixels(l) == 1;
    FoldsFitArray(l, a, WeightStationary);
    assert ColumnCapacity(l, a) == 2;
  }
}
