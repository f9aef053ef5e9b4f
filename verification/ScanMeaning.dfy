/** The Scan operator, and why the Loop built for it by ReplaceScan (compiler/simplifier.cc)
    does the same. */
module ScanMeaning {
  import opened Ir
  import opened GraphIr
  import opened Builder
  import opened Loops

  /** A Scan node: states first, then the inputs to be scanned or the outputs to be stacked. */
  datatype Scan = Scan(
    inputs: seq<ValueId>, outputs: seq<ValueId>,
    body: map<NodeId, Node>, bodyInputs: seq<ValueId>, bodyOutputs: seq<ValueId>, numScanInputs: nat)
  {
    ghost predicate Fits() {
      && 0 < numScanInputs <= |bodyInputs| == |inputs|
      && |bodyInputs| - numScanInputs < |bodyOutputs| == |outputs|
    }

    function States(): nat
      requires Fits()
    {
      |bodyInputs| - numScanInputs
    }

    function NumOutputs(): nat
      requires Fits()
    {
      |bodyOutputs| - States()
    }

    function StateAt(env: Env, envs: seq<Env>, j: nat, s: nat): Data
      requires Fits() && j <= |envs| && s < States()
    {
      if j == 0 then env(inputs[s]) else envs[j - 1](bodyOutputs[s])
    }

    /** The rows of scan input `i`. */
    function Rows(env: Env, i: nat): seq<Data>
      requires Fits() && i < numScanInputs
    {
      if env(inputs[States() + i]).Tensor? then env(inputs[States() + i]).rows else []
    }

    /** What scan output `o` has in the first `j` iterations. */
    function Column(envs: seq<Env>, o: nat, j: nat): (r: seq<Data>)
      requires Fits() && o < NumOutputs() && j <= |envs|
      ensures |r| == j && forall k :: 0 <= k < j ==> r[k] == envs[k](bodyOutputs[States() + o])
    {
      seq(j, k requires 0 <= k < j => envs[k](bodyOutputs[States() + o]))
    }

    /** All scan inputs are tensors of `n` rows. */
    ghost predicate CommonLength(env: Env, n: nat)
      requires Fits()
    {
      forall i :: 0 <= i < numScanInputs ==> env(inputs[States() + i]).Tensor? && |Rows(env, i)| == n
    }

    ghost predicate Iteration(kernels: Kernels, env: Env, envs: seq<Env>, j: nat)
      requires Fits() && j < |envs| && CommonLength(env, |envs|)
    {
      && Solves(kernels, body, envs[j])
      && (forall s :: 0 <= s < States() ==> envs[j](bodyInputs[s]) == StateAt(env, envs, j, s))
      && (forall i :: 0 <= i < numScanInputs ==> envs[j](bodyInputs[States() + i]) == Rows(env, i)[j])
    }

    ghost predicate Run(kernels: Kernels, env: Env, envs: seq<Env>) {
      && Fits() && CommonLength(env, |envs|)
      && (forall j :: 0 <= j < |envs| ==> Iteration(kernels, env, envs, j))
      && (forall s :: 0 <= s < States() ==> env(outputs[s]) == StateAt(env, envs, |envs|, s))
      && (forall o :: 0 <= o < NumOutputs() ==> env(outputs[States() + o]) == Tensor(Column(envs, o, |envs|)))
    }
  }

  /** The values ReplaceScan adds. */
  datatype Added = Added(
    seqs: seq<ValueId>, trips: ValueId, nothing: ValueId, empties: seq<ValueId>,     // outside
    ends: seq<ValueId>, outs: seq<ValueId>,                                          // outside
    iter: ValueId, condIn: ValueId, condOut: ValueId,                                // inside
    ins: seq<ValueId>, inOuts: seq<ValueId>, accIns: seq<ValueId>, accOuts: seq<ValueId>)

  ghost predicate Sizes(scan: Scan, c: Added) {
    && scan.Fits()
    && |c.seqs| == |c.ends| == |c.ins| == |c.inOuts| == scan.numScanInputs
    && |c.empties| == |c.outs| == |c.accIns| == |c.accOuts| == scan.NumOutputs()
  }

  ghost predicate Lists(scan: Scan, loop: Loop, c: Added) {
    && Sizes(scan, c)
    && loop.inputs == [c.trips, c.nothing] + scan.inputs[..scan.States()] + c.seqs + c.empties
    && loop.outputs == scan.outputs[..scan.States()] + c.ends + c.outs
    && loop.bodyInputs == [c.iter, c.condIn] + scan.bodyInputs[..scan.States()] + c.ins + c.accIns
    && loop.bodyOutputs == [c.condOut] + scan.bodyOutputs[..scan.States()] + c.inOuts + c.accOuts
    && loop.nulls == {c.nothing} + SetOf(c.ends) && c.trips !in loop.nulls
    && (forall s :: 0 <= s < scan.States() ==> scan.outputs[s] !in loop.nulls)
    && (forall v :: v in c.outs ==> v !in loop.nulls)
  }

  /** The nodes inside the loop body, one list per scan input and scan output. */
  ghost predicate Inside(scan: Scan, body: map<NodeId, Node>, c: Added) {
    && Sizes(scan, c) && Within(scan.body, body)
    && Has(body, Node(Identity, [c.condIn], [c.condOut]))
    && (forall i :: 0 <= i < scan.numScanInputs ==>
          Has(body, Node(SequenceAt, [c.ins[i], c.iter], [scan.bodyInputs[scan.States() + i]])))
    && (forall i :: 0 <= i < scan.numScanInputs ==> Has(body, Node(Identity, [c.ins[i]], [c.inOuts[i]])))
    && (forall o :: 0 <= o < scan.NumOutputs() ==>
          Has(body, Node(SequenceInsert, [c.accIns[o], scan.bodyOutputs[scan.States() + o]], [c.accOuts[o]])))
  }

  ghost predicate Outside(scan: Scan, outer: map<NodeId, Node>, c: Added) {
    && Sizes(scan, c)
    && (forall i :: 0 <= i < scan.numScanInputs ==>
          Has(outer, Node(SplitToSequence, [scan.inputs[scan.States() + i]], [c.seqs[i]])))
    && Has(outer, Node(SequenceLength, [c.seqs[0]], [c.trips]))
    && (forall o :: 0 <= o < scan.NumOutputs() ==> Has(outer, Node(SequenceConstruct, [], [c.empties[o]])))
    && (forall o :: 0 <= o < scan.NumOutputs() ==>
          Has(outer, Node(ConcatFromSequence, [c.outs[o]], [scan.outputs[scan.States() + o]])))
  }

  ghost predicate Compiled(scan: Scan, outer: map<NodeId, Node>, loop: Loop, c: Added) {
    Lists(scan, loop, c) && Inside(scan, loop.body, c) && Outside(scan, outer, c)
  }

  /** The loop meets the rules for the numbers of inputs and outputs. */
  lemma CompiledValidates(scan: Scan, loop: Loop, c: Added)
    requires Lists(scan, loop, c)
    ensures loop.Fits() && loop.Validates() && loop.States() == |loop.outputs| == |scan.inputs| + scan.NumOutputs()
  {
  }

  function SeqAt(c: Added, env: Env, envs: seq<Env>, j: nat, i: nat): Data
    requires j <= |envs| && i < |c.seqs| && i < |c.inOuts|
  {
    if j == 0 then env(c.seqs[i]) else envs[j - 1](c.inOuts[i])
  }

  function AccAt(c: Added, env: Env, envs: seq<Env>, j: nat, o: nat): Data
    requires j <= |envs| && o < |c.empties| && o < |c.accOuts|
  {
    if j == 0 then env(c.empties[o]) else envs[j - 1](c.accOuts[o])
  }

  /** States, sequences and accumulators keep to their places in all four lists. */
  lemma Places(scan: Scan, loop: Loop, c: Added, env: Env, envs: seq<Env>, j: nat)
    requires Lists(scan, loop, c) && loop.Fits() && loop.States() == |scan.inputs| + scan.NumOutputs() && j <= |envs|
    ensures forall s :: 0 <= s < scan.States() ==> loop.StateAt(env, envs, j, s) == scan.StateAt(env, envs, j, s)
    ensures forall i :: 0 <= i < scan.numScanInputs ==>
      loop.StateAt(env, envs, j, scan.States() + i) == SeqAt(c, env, envs, j, i)
    ensures forall o :: 0 <= o < scan.NumOutputs() ==>
      loop.StateAt(env, envs, j, |scan.inputs| + o) == AccAt(c, env, envs, j, o)
    ensures loop.Enters(env, envs, j) <==> env(c.trips).Int? && j < env(c.trips).i
  {
  }

  lemma BodyPlaces(scan: Scan, loop: Loop, c: Added)
    requires Lists(scan, loop, c)
    ensures loop.bodyInputs[0] == c.iter && loop.bodyInputs[1] == c.condIn
    ensures forall s :: 0 <= s < scan.States() ==>
      loop.bodyInputs[2 + s] == scan.bodyInputs[s] && loop.outputs[s] == scan.outputs[s]
    ensures forall i :: 0 <= i < scan.numScanInputs ==> loop.bodyInputs[2 + scan.States() + i] == c.ins[i]
    ensures forall i :: 0 <= i < scan.numScanInputs ==> loop.outputs[scan.States() + i] == c.ends[i]
    ensures forall o :: 0 <= o < scan.NumOutputs() ==> loop.bodyInputs[2 + |scan.inputs| + o] == c.accIns[o]
    ensures forall o :: 0 <= o < scan.NumOutputs() ==> loop.outputs[|scan.inputs| + o] == c.outs[o]
  {
  }

  /** An iteration of the loop, spelled out. */
  ghost predicate Linked(kernels: Kernels, scan: Scan, loop: Loop, c: Added, env: Env, envs: seq<Env>, j: nat) {
    && j < |envs| && Sizes(scan, c) && Solves(kernels, loop.body, envs[j])
    && envs[j](c.iter) == Int(j)
    && (forall s :: 0 <= s < scan.States() ==> envs[j](scan.bodyInputs[s]) == scan.StateAt(env, envs, j, s))
    && (forall i :: 0 <= i < scan.numScanInputs ==> envs[j](c.ins[i]) == SeqAt(c, env, envs, j, i))
    && (forall o :: 0 <= o < scan.NumOutputs() ==> envs[j](c.accIns[o]) == AccAt(c, env, envs, j, o))
  }

  lemma IterationLinks(kernels: Kernels, scan: Scan, loop: Loop, c: Added, env: Env, envs: seq<Env>, j: nat)
    requires Lists(scan, loop, c) && loop.Run(kernels, env, envs) && j < |envs|
    ensures Linked(kernels, scan, loop, c, env, envs, j)
  {
    hide Solves;
    CompiledValidates(scan, loop, c);
    Places(scan, loop, c, env, envs, j);
    BodyPlaces(scan, loop, c);
    assert loop.Iteration(kernels, env, envs, j);
    forall s | 0 <= s < scan.States() ensures envs[j](scan.bodyInputs[s]) == scan.StateAt(env, envs, j, s) {
      assert envs[j](loop.bodyInputs[2 + s]) == loop.StateAt(env, envs, j, s);
    }
    forall i | 0 <= i < scan.numScanInputs ensures envs[j](c.ins[i]) == SeqAt(c, env, envs, j, i) {
      assert envs[j](loop.bodyInputs[2 + (scan.States() + i)]) == loop.StateAt(env, envs, j, scan.States() + i);
    }
    forall o | 0 <= o < scan.NumOutputs() ensures envs[j](c.accIns[o]) == AccAt(c, env, envs, j, o) {
      assert envs[j](loop.bodyInputs[2 + (|scan.inputs| + o)]) == loop.StateAt(env, envs, j, |scan.inputs| + o);
    }
  }

  /** Before iteration `j` the sequences are whole and the accumulators have `j` elements. */
  ghost predicate Halfway(scan: Scan, c: Added, env: Env, envs: seq<Env>, j: nat) {
    && Sizes(scan, c) && j <= |envs|
    && (forall i :: 0 <= i < scan.numScanInputs ==> SeqAt(c, env, envs, j, i) == Sequence(scan.Rows(env, i)))
    && (forall o :: 0 <= o < scan.NumOutputs() ==> AccAt(c, env, envs, j, o) == Sequence(scan.Column(envs, o, j)))
  }

  ghost predicate Splits(scan: Scan, c: Added, env: Env, i: nat)
    requires Sizes(scan, c) && i < scan.numScanInputs
  {
    env(scan.inputs[scan.States() + i]).Tensor? && env(c.seqs[i]) == Sequence(scan.Rows(env, i))
  }

  ghost predicate Stacks(scan: Scan, c: Added, env: Env, o: nat)
    requires Sizes(scan, c) && o < scan.NumOutputs()
  {
    env(c.outs[o]).Sequence? && env(scan.outputs[scan.States() + o]) == Tensor(env(c.outs[o]).elems)
  }

  lemma SplitMeans(kernels: Kernels, scan: Scan, outer: map<NodeId, Node>, c: Added, env: Env, i: nat)
    requires Outside(scan, outer, c) && Solves(kernels, outer, env) && i < scan.numScanInputs
    ensures Splits(scan, c, env, i)
  {
    hide Has, Solves, Holds;
    HasMeans(kernels, outer, env, Node(SplitToSequence, [scan.inputs[scan.States() + i]], [c.seqs[i]]));
    Unary(kernels, env, SplitToSequence, scan.inputs[scan.States() + i], c.seqs[i]);
  }

  lemma OutMeans(kernels: Kernels, scan: Scan, outer: map<NodeId, Node>, c: Added, env: Env, o: nat)
    requires Outside(scan, outer, c) && Solves(kernels, outer, env) && o < scan.NumOutputs()
    ensures env(c.empties[o]) == Sequence([]) && Stacks(scan, c, env, o)
  {
    hide Has, Solves, Holds;
    HasMeans(kernels, outer, env, Node(SequenceConstruct, [], [c.empties[o]]));
    Nullary(kernels, env, SequenceConstruct, c.empties[o]);
    HasMeans(kernels, outer, env, Node(ConcatFromSequence, [c.outs[o]], [scan.outputs[scan.States() + o]]));
    Unary(kernels, env, ConcatFromSequence, c.outs[o], scan.outputs[scan.States() + o]);
  }

  lemma OutsideMeans(kernels: Kernels, scan: Scan, outer: map<NodeId, Node>, c: Added, env: Env)
    requires Outside(scan, outer, c) && Solves(kernels, outer, env)
    ensures Sizes(scan, c) && env(c.trips) == Int(|scan.Rows(env, 0)|)
    ensures forall i :: 0 <= i < scan.numScanInputs ==> Splits(scan, c, env, i)
    ensures forall o :: 0 <= o < scan.NumOutputs() ==> env(c.empties[o]) == Sequence([]) && Stacks(scan, c, env, o)
  {
    hide Has, Solves, Holds, Stacks;
    SplitMeans(kernels, scan, outer, c, env, 0);
    HasMeans(kernels, outer, env, Node(SequenceLength, [c.seqs[0]], [c.trips]));
    Unary(kernels, env, SequenceLength, c.seqs[0], c.trips);
    forall i | 0 <= i < scan.numScanInputs ensures Splits(scan, c, env, i) {
      SplitMeans(kernels, scan, outer, c, env, i);
    }
    forall o | 0 <= o < scan.NumOutputs() ensures env(c.empties[o]) == Sequence([]) && Stacks(scan, c, env, o) {
      OutMeans(kernels, scan, outer, c, env, o);
    }
  }

  lemma InsideMeans(kernels: Kernels, scan: Scan, body: map<NodeId, Node>, c: Added, benv: Env, j: nat, i: nat,
                    rows: seq<Data>)
    requires Inside(scan, body, c) && Solves(kernels, body, benv) && benv(c.iter) == Int(j)
    requires i < scan.numScanInputs && benv(c.ins[i]) == Sequence(rows)
    ensures j < |rows| && benv(scan.bodyInputs[scan.States() + i]) == rows[j] && benv(c.inOuts[i]) == Sequence(rows)
  {
    hide Has, Solves, Holds;
    HasMeans(kernels, body, benv, Node(SequenceAt, [c.ins[i], c.iter], [scan.bodyInputs[scan.States() + i]]));
    Binary(kernels, benv, SequenceAt, c.ins[i], c.iter, scan.bodyInputs[scan.States() + i]);
    HasMeans(kernels, body, benv, Node(Identity, [c.ins[i]], [c.inOuts[i]]));
    Unary(kernels, benv, Identity, c.ins[i], c.inOuts[i]);
  }

  lemma AccumulateMeans(kernels: Kernels, scan: Scan, body: map<NodeId, Node>, c: Added, benv: Env, o: nat,
                        column: seq<Data>)
    requires Inside(scan, body, c) && Solves(kernels, body, benv)
    requires o < scan.NumOutputs() && benv(c.accIns[o]) == Sequence(column)
    ensures benv(c.accOuts[o]) == Sequence(column + [benv(scan.bodyOutputs[scan.States() + o])])
  {
    hide Has, Solves, Holds;
    var out := scan.bodyOutputs[scan.States() + o];
    HasMeans(kernels, body, benv, Node(SequenceInsert, [c.accIns[o], out], [c.accOuts[o]]));
    Binary(kernels, benv, SequenceInsert, c.accIns[o], out, c.accOuts[o]);
  }

  ghost predicate ReadsRow(scan: Scan, env: Env, benv: Env, i: nat, j: nat)
    requires scan.Fits() && i < scan.numScanInputs
  {
    j < |scan.Rows(env, i)| && benv(scan.bodyInputs[scan.States() + i]) == scan.Rows(env, i)[j]
  }

  /** One iteration reads row `j` of every scan input and appends to every accumulator. */
  lemma HalfwayStep(kernels: Kernels, scan: Scan, loop: Loop, c: Added, env: Env, envs: seq<Env>, j: nat)
    requires Inside(scan, loop.body, c) && Linked(kernels, scan, loop, c, env, envs, j)
    requires Halfway(scan, c, env, envs, j)
    ensures Halfway(scan, c, env, envs, j + 1)
    ensures forall i :: 0 <= i < scan.numScanInputs ==> ReadsRow(scan, env, envs[j], i, j)
  {
    hide Inside, Solves;
    var next := j + 1;
    forall i | 0 <= i < scan.numScanInputs
      ensures ReadsRow(scan, env, envs[j], i, j) && SeqAt(c, env, envs, next, i) == Sequence(scan.Rows(env, i))
    {
      InsideMeans(kernels, scan, loop.body, c, envs[j], j, i, scan.Rows(env, i));
    }
    forall o | 0 <= o < scan.NumOutputs() ensures AccAt(c, env, envs, next, o) == Sequence(scan.Column(envs, o, next)) {
      AccumulateMeans(kernels, scan, loop.body, c, envs[j], o, scan.Column(envs, o, j));
      assert scan.Column(envs, o, next) == scan.Column(envs, o, j) + [envs[j](scan.bodyOutputs[scan.States() + o])];
    }
  }

  lemma {:induction false} HalfwayAt(kernels: Kernels, scan: Scan, outer: map<NodeId, Node>, loop: Loop, c: Added,
                                     env: Env, envs: seq<Env>, j: nat)
    requires Compiled(scan, outer, loop, c) && Solves(kernels, outer, env) && loop.Run(kernels, env, envs)
    requires j <= |envs|
    ensures Halfway(scan, c, env, envs, j)
  {
    hide Lists, Inside, Outside, Solves, Linked;
    if j == 0 {
      OutsideMeans(kernels, scan, outer, c, env);
      forall i | 0 <= i < scan.numScanInputs ensures SeqAt(c, env, envs, 0, i) == Sequence(scan.Rows(env, i)) {
        assert Splits(scan, c, env, i);
      }
    } else {
      HalfwayAt(kernels, scan, outer, loop, c, env, envs, j - 1);
      IterationLinks(kernels, scan, loop, c, env, envs, j - 1);
      HalfwayStep(kernels, scan, loop, c, env, envs, j - 1);
    }
  }

  lemma LoopLength(kernels: Kernels, scan: Scan, outer: map<NodeId, Node>, loop: Loop, c: Added, env: Env,
                   envs: seq<Env>)
    requires Lists(scan, loop, c) && Outside(scan, outer, c) && Solves(kernels, outer, env)
    requires loop.Run(kernels, env, envs)
    ensures |envs| == |scan.Rows(env, 0)|
  {
    hide Solves, Outside;
    OutsideMeans(kernels, scan, outer, c, env);
    CompiledValidates(scan, loop, c);
    Places(scan, loop, c, env, envs, |envs|);
    if |envs| > 0 {
      assert loop.Iteration(kernels, env, envs, |envs| - 1);
      Places(scan, loop, c, env, envs, |envs| - 1);
    }
  }

  lemma LoopIteration(kernels: Kernels, scan: Scan, outer: map<NodeId, Node>, loop: Loop, c: Added, env: Env,
                      envs: seq<Env>, j: nat)
    requires Compiled(scan, outer, loop, c) && Solves(kernels, outer, env) && loop.Run(kernels, env, envs)
    requires scan.CommonLength(env, |envs|) && j < |envs|
    ensures scan.Iteration(kernels, env, envs, j)
  {
    hide Lists, Inside, Outside, Solves, loop.Run;
    HalfwayAt(kernels, scan, outer, loop, c, env, envs, j);
    IterationLinks(kernels, scan, loop, c, env, envs, j);
    HalfwayStep(kernels, scan, loop, c, env, envs, j);
    forall i | 0 <= i < scan.numScanInputs ensures envs[j](scan.bodyInputs[scan.States() + i]) == scan.Rows(env, i)[j] {
      assert ReadsRow(scan, env, envs[j], i, j);
    }
    InsideWithin(scan, loop.body, c);
    SolvesWithin(kernels, scan.body, loop.body, envs[j]);
  }

  lemma LoopResults(kernels: Kernels, scan: Scan, loop: Loop, c: Added, env: Env, envs: seq<Env>)
    requires Lists(scan, loop, c) && loop.Run(kernels, env, envs)
    ensures forall s :: 0 <= s < scan.States() ==> env(scan.outputs[s]) == scan.StateAt(env, envs, |envs|, s)
    ensures forall o :: 0 <= o < scan.NumOutputs() ==> env(c.outs[o]) == AccAt(c, env, envs, |envs|, o)
  {
    hide Solves;
    CompiledValidates(scan, loop, c);
    Places(scan, loop, c, env, envs, |envs|);
    BodyPlaces(scan, loop, c);
    forall s | 0 <= s < scan.States() ensures env(scan.outputs[s]) == scan.StateAt(env, envs, |envs|, s) {
      assert loop.outputs[s] == scan.outputs[s];
    }
    forall o | 0 <= o < scan.NumOutputs() ensures env(c.outs[o]) == AccAt(c, env, envs, |envs|, o) {
      assert loop.outputs[|scan.inputs| + o] == c.outs[o] && c.outs[o] in c.outs;
    }
  }

  /** Every run of the loop is a run of the scan, if the scan inputs have a common length. */
  lemma LoopRunsScan(kernels: Kernels, scan: Scan, outer: map<NodeId, Node>, loop: Loop, c: Added, env: Env,
                     envs: seq<Env>)
    requires Compiled(scan, outer, loop, c) && Solves(kernels, outer, env) && loop.Run(kernels, env, envs)
    requires scan.CommonLength(env, |scan.Rows(env, 0)|)
    ensures scan.Run(kernels, env, envs)
  {
    hide Lists, Inside, Outside, Solves, loop.Run;
    LoopLength(kernels, scan, outer, loop, c, env, envs);
    OutsideMeans(kernels, scan, outer, c, env);
    forall j | 0 <= j < |envs| ensures scan.Iteration(kernels, env, envs, j) {
      LoopIteration(kernels, scan, outer, loop, c, env, envs, j);
    }
    HalfwayAt(kernels, scan, outer, loop, c, env, envs, |envs|);
    LoopResults(kernels, scan, loop, c, env, envs);
    forall o | 0 <= o < scan.NumOutputs()
      ensures env(scan.outputs[scan.States() + o]) == Tensor(scan.Column(envs, o, |envs|))
    {
      assert Stacks(scan, c, env, o);
    }
  }

  lemma InsideWithin(scan: Scan, body: map<NodeId, Node>, c: Added)
    requires Inside(scan, body, c)
    ensures Within(scan.body, body)
  {
  }

  // ---- every run of the scan is a run of the loop ----

  ghost predicate Increasing(vs: seq<ValueId>, low: nat) {
    && (forall i :: 0 <= i < |vs| ==> low <= vs[i])
    && (forall i, k :: 0 <= i < k < |vs| ==> vs[i] < vs[k])
  }

  /** Two lists whose values were made in turn. */
  ghost predicate Alternating(a: seq<ValueId>, b: seq<ValueId>, low: nat) {
    && |a| == |b| && Increasing(a, low) && Increasing(b, low)
    && (forall i :: 0 <= i < |a| ==> a[i] < b[i])
    && (forall i :: 0 < i < |a| ==> b[i - 1] < a[i])
  }

  lemma AlternatingApart(a: seq<ValueId>, b: seq<ValueId>, low: nat, i: nat, k: nat)
    requires Alternating(a, b, low) && i < |a| && k < |b|
    ensures a[i] != b[k]
  {
    if i <= k {
      assert a[i] <= a[k] < b[k];
    } else {
      assert b[k] < a[k + 1] <= a[i];
    }
  }

  /** The values outside were made after `base`, in this order. */
  ghost predicate NewOutside(scan: Scan, c: Added, base: nat) {
    && Sizes(scan, c) && AllIn(scan.inputs, base) && AllIn(scan.outputs, base)
    && Increasing(c.seqs, base) && AllIn(c.seqs, c.trips) && base <= c.trips
    && Increasing(c.empties, c.trips + 1)
    && Increasing(c.outs, c.trips + 1)
    && (forall o, k :: 0 <= o < |c.outs| && 0 <= k < |c.empties| ==> c.empties[k] < c.outs[o])
  }

  ghost predicate NewInside(scan: Scan, c: Added, base: nat, middle: nat) {
    && Sizes(scan, c) && AllIn(scan.bodyInputs, base) && AllIn(scan.bodyOutputs, base)
    && c.iter == base && c.condIn == base + 1 && c.condOut == base + 2
    && Alternating(c.ins, c.inOuts, base + 3) && AllIn(c.inOuts, middle)
    && Alternating(c.accIns, c.accOuts, middle) && base + 3 <= middle
  }

  ghost predicate OuterNode(scan: Scan, c: Added, n: Node)
    requires Sizes(scan, c)
  {
    || n == Node(SequenceLength, [c.seqs[0]], [c.trips])
    || (exists i ::
          0 <= i < scan.numScanInputs && n == Node(SplitToSequence, [scan.inputs[scan.States() + i]], [c.seqs[i]]))
    || (exists o :: 0 <= o < scan.NumOutputs() && n == Node(SequenceConstruct, [], [c.empties[o]]))
    || (exists o :: 0 <= o < scan.NumOutputs() && n == Node(ConcatFromSequence, [c.outs[o]],
                                                            [scan.outputs[scan.States() + o]]))
  }

  ghost predicate BodyNode(scan: Scan, c: Added, n: Node)
    requires Sizes(scan, c)
  {
    || n == Node(Identity, [c.condIn], [c.condOut])
    || (exists i ::
          0 <= i < scan.numScanInputs
          && n == Node(SequenceAt, [c.ins[i], c.iter], [scan.bodyInputs[scan.States() + i]]))
    || (exists i :: 0 <= i < scan.numScanInputs && n == Node(Identity, [c.ins[i]], [c.inOuts[i]]))
    || (exists o :: 0 <= o < scan.NumOutputs()
          && n == Node(SequenceInsert, [c.accIns[o], scan.bodyOutputs[scan.States() + o]], [c.accOuts[o]]))
  }

  /** Nothing else was added, and what was there before knows no new value. */
  ghost predicate NothingElse(scan: Scan, before: map<NodeId, Node>, outer: map<NodeId, Node>, body: map<NodeId, Node>,
                              c: Added, outBase: nat, inBase: nat)
    requires Sizes(scan, c)
  {
    && (forall n :: n in before ==> BelowNode(before[n], outBase))
    && (forall n :: n in outer ==> (n in before && outer[n] == before[n]) || OuterNode(scan, c, outer[n]))
    && (forall n :: n in scan.body ==> BelowNode(scan.body[n], inBase))
    && (forall n :: n in body ==> (n in scan.body && body[n] == scan.body[n]) || BodyNode(scan, c, body[n]))
  }

  /** What the new values outside hold. */
  function OuterEnv(scan: Scan, c: Added, env: Env, envs: seq<Env>): Env
    requires Sizes(scan, c)
  {
    (v: ValueId) =>
      if v == c.trips then Int(|envs|)
      else if v in c.seqs then Sequence(scan.Rows(env, IndexOf(c.seqs, v)))
      else if v in c.empties then Sequence([])
      else if v in c.outs then Sequence(scan.Column(envs, IndexOf(c.outs, v), |envs|))
      else env(v)
  }

  /** What the new values inside hold in iteration `j`. */
  function InnerEnv(scan: Scan, c: Added, env: Env, envs: seq<Env>, j: nat): Env
    requires Sizes(scan, c) && j < |envs|
  {
    (v: ValueId) =>
      if v == c.iter then Int(j)
      else if v == c.condIn || v == c.condOut then Bool(true)
      else if v in c.ins then Sequence(scan.Rows(env, IndexOf(c.ins, v)))
      else if v in c.inOuts then Sequence(scan.Rows(env, IndexOf(c.inOuts, v)))
      else if v in c.accIns then Sequence(scan.Column(envs, IndexOf(c.accIns, v), j))
      else if v in c.accOuts then Sequence(scan.Column(envs, IndexOf(c.accOuts, v), j + 1))
      else envs[j](v)
  }

  lemma IndexOfIncreasing(vs: seq<ValueId>, low: nat, i: nat)
    requires Increasing(vs, low) && i < |vs|
    ensures vs[i] in vs && IndexOf(vs, vs[i]) == i
  {
  }

  lemma OuterValues(scan: Scan, c: Added, env: Env, envs: seq<Env>, base: nat)
    requires NewOutside(scan, c, base)
    ensures var e := OuterEnv(scan, c, env, envs);
      && (forall v: ValueId :: v < base ==> e(v) == env(v))
      && e(c.trips) == Int(|envs|)
      && (forall i :: 0 <= i < scan.numScanInputs ==> e(c.seqs[i]) == Sequence(scan.Rows(env, i)))
      && (forall o :: 0 <= o < scan.NumOutputs() ==> e(c.empties[o]) == Sequence([]))
      && (forall o :: 0 <= o < scan.NumOutputs() ==> e(c.outs[o]) == Sequence(scan.Column(envs, o, |envs|)))
  {
    hide IndexOf, scan.Column, scan.Rows;
    var e := OuterEnv(scan, c, env, envs);
    forall i | 0 <= i < scan.numScanInputs ensures e(c.seqs[i]) == Sequence(scan.Rows(env, i)) {
      IndexOfIncreasing(c.seqs, base, i);
    }
    forall o | 0 <= o < scan.NumOutputs() ensures e(c.outs[o]) == Sequence(scan.Column(envs, o, |envs|)) {
      IndexOfIncreasing(c.outs, c.trips + 1, o);
    }
  }

  lemma InnerValues(scan: Scan, c: Added, env: Env, envs: seq<Env>, base: nat, middle: nat, j: nat)
    requires NewInside(scan, c, base, middle) && j < |envs|
    ensures var e := InnerEnv(scan, c, env, envs, j);
      && (forall v: ValueId :: v < base ==> e(v) == envs[j](v))
      && e(c.iter) == Int(j) && e(c.condIn) == e(c.condOut) == Bool(true)
      && (forall i :: 0 <= i < scan.numScanInputs ==> e(c.ins[i]) == e(c.inOuts[i]) == Sequence(scan.Rows(env, i)))
      && (forall o :: 0 <= o < scan.NumOutputs() ==> e(c.accIns[o]) == Sequence(scan.Column(envs, o, j)))
      && (forall o :: 0 <= o < scan.NumOutputs() ==> e(c.accOuts[o]) == Sequence(scan.Column(envs, o, j + 1)))
  {
    hide IndexOf, scan.Column, scan.Rows, Alternating;
    var e := InnerEnv(scan, c, env, envs, j);
    AlternatingParts(c.ins, c.inOuts, base + 3);
    AlternatingParts(c.accIns, c.accOuts, middle);
    forall i | 0 <= i < scan.numScanInputs ensures e(c.ins[i]) == e(c.inOuts[i]) == Sequence(scan.Rows(env, i)) {
      IndexOfIncreasing(c.ins, base + 3, i);
      IndexOfIncreasing(c.inOuts, base + 3, i);
    }
    var next := j + 1;
    forall o | 0 <= o < scan.NumOutputs()
      ensures e(c.accIns[o]) == Sequence(scan.Column(envs, o, j))
      ensures e(c.accOuts[o]) == Sequence(scan.Column(envs, o, next))
    {
      IndexOfIncreasing(c.accIns, middle, o);
      IndexOfIncreasing(c.accOuts, middle, o);
    }
  }

  lemma AlternatingParts(a: seq<ValueId>, b: seq<ValueId>, low: nat)
    requires Alternating(a, b, low)
    ensures |a| == |b| && Increasing(a, low) && Increasing(b, low) && (forall i :: 0 <= i < |a| ==> a[i] < b[i])
    ensures forall v :: v in b ==> v !in a
  {
    forall k | 0 <= k < |b| ensures b[k] !in a {
      forall i | 0 <= i < |a| ensures a[i] != b[k] { AlternatingApart(a, b, low, i, k); }
    }
  }

  lemma Makes(kernels: Kernels, op: Op, inputs: seq<ValueId>, y: ValueId, env: Env, args: seq<Data>)
    requires |args| == |inputs| && forall i :: 0 <= i < |args| ==> env(inputs[i]) == args[i]
    requires Apply(kernels, op, args) == [env(y)]
    ensures Holds(kernels, Node(op, inputs, [y]), env)
  {
    assert Vals(env, inputs) == args && Vals(env, [y]) == [env(y)];
  }

  lemma LookupHolds(kernels: Kernels, e: Env, x: ValueId, i: ValueId, y: ValueId, rows: seq<Data>, j: nat)
    requires e(x) == Sequence(rows) && e(i) == Int(j) && j < |rows| && e(y) == rows[j]
    ensures Holds(kernels, Node(SequenceAt, [x, i], [y]), e)
  {
    hide Holds;
    Makes(kernels, SequenceAt, [x, i], y, e, [Sequence(rows), Int(j)]);
  }

  lemma InsertHolds(kernels: Kernels, e: Env, x: ValueId, i: ValueId, y: ValueId, column: seq<Data>, d: Data)
    requires e(x) == Sequence(column) && e(i) == d && e(y) == Sequence(column + [d])
    ensures Holds(kernels, Node(SequenceInsert, [x, i], [y]), e)
  {
    hide Holds;
    Makes(kernels, SequenceInsert, [x, i], y, e, [Sequence(column), d]);
  }

  lemma UnaryHolds(kernels: Kernels, e: Env, op: Op, x: ValueId, y: ValueId, d: Data)
    requires e(x) == d && Apply(kernels, op, [d]) == [e(y)]
    ensures Holds(kernels, Node(op, [x], [y]), e)
  {
    hide Holds;
    Makes(kernels, op, [x], y, e, [d]);
  }

  /** Operators between tensors and sequences. */
  lemma SequenceHolds(kernels: Kernels, e: Env, x: ValueId, y: ValueId, rows: seq<Data>)
    ensures e(x) == Sequence(rows) && e(y) == Int(|rows|) ==> Holds(kernels, Node(SequenceLength, [x], [y]), e)
    ensures e(x) == Tensor(rows) && e(y) == Sequence(rows) ==> Holds(kernels, Node(SplitToSequence, [x], [y]), e)
    ensures e(x) == Sequence(rows) && e(y) == Tensor(rows) ==> Holds(kernels, Node(ConcatFromSequence, [x], [y]), e)
    ensures e(y) == Sequence([]) ==> Holds(kernels, Node(SequenceConstruct, [], [y]), e)
  {
    hide Holds;
    if e(x) == Sequence(rows) && e(y) == Int(|rows|) { UnaryHolds(kernels, e, SequenceLength, x, y, e(x)); }
    if e(x) == Tensor(rows) && e(y) == Sequence(rows) { UnaryHolds(kernels, e, SplitToSequence, x, y, e(x)); }
    if e(x) == Sequence(rows) && e(y) == Tensor(rows) { UnaryHolds(kernels, e, ConcatFromSequence, x, y, e(x)); }
    if e(y) == Sequence([]) { Makes(kernels, SequenceConstruct, [], y, e, []); }
  }

  lemma RunRows(kernels: Kernels, scan: Scan, env: Env, envs: seq<Env>, j: nat)
    requires scan.Run(kernels, env, envs)
    ensures forall i :: 0 <= i < scan.numScanInputs ==>
      env(scan.inputs[scan.States() + i]) == Tensor(scan.Rows(env, i)) && |scan.Rows(env, i)| == |envs|
    ensures forall o :: 0 <= o < scan.NumOutputs() ==>
      env(scan.outputs[scan.States() + o]) == Tensor(scan.Column(envs, o, |envs|))
    ensures forall i :: 0 <= i < scan.numScanInputs && j < |envs| ==> ReadsRow(scan, env, envs[j], i, j)
  {
    hide Solves;
    if j < |envs| { assert scan.Iteration(kernels, env, envs, j); }
  }

  lemma OuterNodeHolds(kernels: Kernels, scan: Scan, c: Added, env: Env, envs: seq<Env>, base: nat, n: Node)
    requires NewOutside(scan, c, base) && scan.Run(kernels, env, envs) && OuterNode(scan, c, n)
    ensures Holds(kernels, n, OuterEnv(scan, c, env, envs))
  {
    hide Solves, OuterEnv, Holds, scan.Run, Increasing, scan.Rows, scan.Column, Apply;
    var e := OuterEnv(scan, c, env, envs);
    OuterValues(scan, c, env, envs, base);
    RunRows(kernels, scan, env, envs, |envs|);
    if n == Node(SequenceLength, [c.seqs[0]], [c.trips]) {
      SequenceHolds(kernels, e, c.seqs[0], c.trips, scan.Rows(env, 0));
    } else if i :| 0 <= i < scan.numScanInputs && n == Node(SplitToSequence, [scan.inputs[scan.States() + i]],
                                                            [c.seqs[i]]) {
      SequenceHolds(kernels, e, scan.inputs[scan.States() + i], c.seqs[i], scan.Rows(env, i));
    } else if o :| 0 <= o < scan.NumOutputs() && n == Node(SequenceConstruct, [], [c.empties[o]]) {
      SequenceHolds(kernels, e, c.empties[o], c.empties[o], []);
    } else {
      var o :| 0 <= o < scan.NumOutputs() && n == Node(ConcatFromSequence, [c.outs[o]],
                                                       [scan.outputs[scan.States() + o]]);
      SequenceHolds(kernels, e, c.outs[o], scan.outputs[scan.States() + o], scan.Column(envs, o, |envs|));
    }
  }

  lemma ColumnMore(scan: Scan, envs: seq<Env>, o: nat, j: nat)
    requires scan.Fits() && o < scan.NumOutputs() && j < |envs|
    ensures scan.Column(envs, o, j + 1) == scan.Column(envs, o, j) + [envs[j](scan.bodyOutputs[scan.States() + o])]
  {
  }

  lemma BodyNodeHolds(kernels: Kernels, scan: Scan, c: Added, env: Env, envs: seq<Env>, base: nat, middle: nat, j: nat,
                      n: Node)
    requires NewInside(scan, c, base, middle) && scan.Run(kernels, env, envs) && j < |envs| && BodyNode(scan, c, n)
    ensures Holds(kernels, n, InnerEnv(scan, c, env, envs, j))
  {
    hide Solves, InnerEnv, Holds, Alternating, scan.Run, scan.Rows, scan.Column, Apply;
    var e := InnerEnv(scan, c, env, envs, j);
    InnerValues(scan, c, env, envs, base, middle, j);
    RunRows(kernels, scan, env, envs, j);
    if n == Node(Identity, [c.condIn], [c.condOut]) {
      IdentityHolds(kernels, e, c.condIn, c.condOut);
    } else if i :| 0 <= i < scan.numScanInputs && n == Node(SequenceAt, [c.ins[i], c.iter],
                                                            [scan.bodyInputs[scan.States() + i]]) {
      assert ReadsRow(scan, env, envs[j], i, j);
      LookupHolds(kernels, e, c.ins[i], c.iter, scan.bodyInputs[scan.States() + i], scan.Rows(env, i), j);
    } else if i :| 0 <= i < scan.numScanInputs && n == Node(Identity, [c.ins[i]], [c.inOuts[i]]) {
      IdentityHolds(kernels, e, c.ins[i], c.inOuts[i]);
    } else {
      var o :| 0 <= o < scan.NumOutputs()
        && n == Node(SequenceInsert, [c.accIns[o], scan.bodyOutputs[scan.States() + o]], [c.accOuts[o]]);
      var out := scan.bodyOutputs[scan.States() + o];
      ColumnMore(scan, envs, o, j);
      InsertHolds(kernels, e, c.accIns[o], out, c.accOuts[o], scan.Column(envs, o, j), envs[j](out));
    }
  }

  lemma OuterSolves(kernels: Kernels, scan: Scan, before: map<NodeId, Node>, outer: map<NodeId, Node>, loop: Loop,
                    c: Added, env: Env, envs: seq<Env>, outBase: nat, inBase: nat)
    requires NewOutside(scan, c, outBase) && NothingElse(scan, before, outer, loop.body, c, outBase, inBase)
    requires Solves(kernels, before, env) && scan.Run(kernels, env, envs)
    ensures Solves(kernels, outer, OuterEnv(scan, c, env, envs))
  {
    hide OuterEnv, Holds, OuterNode, scan.Run;
    var e := OuterEnv(scan, c, env, envs);
    OuterValues(scan, c, env, envs, outBase);
    forall n | n in outer ensures Holds(kernels, outer[n], e) {
      if OuterNode(scan, c, outer[n]) {
        OuterNodeHolds(kernels, scan, c, env, envs, outBase, outer[n]);
      } else {
        assert BelowNode(before[n], outBase);
        HoldsAlike(kernels, before[n], env, e);
      }
    }
  }

  lemma InnerSolves(kernels: Kernels, scan: Scan, before: map<NodeId, Node>, outer: map<NodeId, Node>, loop: Loop,
                    c: Added, env: Env, envs: seq<Env>, outBase: nat, inBase: nat, middle: nat, j: nat)
    requires NewInside(scan, c, inBase, middle) && NothingElse(scan, before, outer, loop.body, c, outBase, inBase)
    requires scan.Run(kernels, env, envs) && j < |envs|
    ensures Solves(kernels, loop.body, InnerEnv(scan, c, env, envs, j))
  {
    hide InnerEnv, Holds, BodyNode, Alternating;
    var e := InnerEnv(scan, c, env, envs, j);
    InnerValues(scan, c, env, envs, inBase, middle, j);
    assert scan.Iteration(kernels, env, envs, j);
    forall n | n in loop.body ensures Holds(kernels, loop.body[n], e) {
      if BodyNode(scan, c, loop.body[n]) {
        BodyNodeHolds(kernels, scan, c, env, envs, inBase, middle, j, loop.body[n]);
      } else {
        assert BelowNode(scan.body[n], inBase);
        HoldsAlike(kernels, scan.body[n], envs[j], e);
      }
    }
  }

  function InnerEnvs(scan: Scan, c: Added, env: Env, envs: seq<Env>): (r: seq<Env>)
    requires Sizes(scan, c)
    ensures |r| == |envs| && forall j :: 0 <= j < |envs| ==> r[j] == InnerEnv(scan, c, env, envs, j)
  {
    seq(|envs|, j requires 0 <= j < |envs| => InnerEnv(scan, c, env, envs, j))
  }

  /** The states of the loop in the run made from a run of the scan. */
  lemma MadeStates(scan: Scan, loop: Loop, c: Added, env: Env, envs: seq<Env>, outBase: nat, inBase: nat, middle: nat,
                   j: nat)
    requires Lists(scan, loop, c) && NewOutside(scan, c, outBase) && NewInside(scan, c, inBase, middle) && j <= |envs|
    ensures var e, es := OuterEnv(scan, c, env, envs), InnerEnvs(scan, c, env, envs);
      && (forall s :: 0 <= s < scan.States() ==> scan.StateAt(e, es, j, s) == scan.StateAt(env, envs, j, s))
      && (forall i :: 0 <= i < scan.numScanInputs ==> SeqAt(c, e, es, j, i) == Sequence(scan.Rows(env, i)))
      && (forall o :: 0 <= o < scan.NumOutputs() ==> AccAt(c, e, es, j, o) == Sequence(scan.Column(envs, o, j)))
  {
    hide OuterEnv, InnerEnv, Alternating;
    OuterValues(scan, c, env, envs, outBase);
    if j > 0 { InnerValues(scan, c, env, envs, inBase, middle, j - 1); }
  }

  /** Iteration `j` of the loop in that run. */
  lemma MadeIteration(kernels: Kernels, scan: Scan, before: map<NodeId, Node>, outer: map<NodeId, Node>, loop: Loop,
                      c: Added, env: Env, envs: seq<Env>, outBase: nat, inBase: nat, middle: nat, j: nat)
    requires Lists(scan, loop, c) && NewOutside(scan, c, outBase) && NewInside(scan, c, inBase, middle)
    requires NothingElse(scan, before, outer, loop.body, c, outBase, inBase) && scan.Run(kernels, env, envs)
    requires j < |envs|
    requires loop.Fits()
    ensures loop.Iteration(kernels, OuterEnv(scan, c, env, envs), InnerEnvs(scan, c, env, envs), j)
  {
    hide OuterEnv, InnerEnv, Solves, NothingElse, Alternating, scan.Iteration;
    var e, es := OuterEnv(scan, c, env, envs), InnerEnvs(scan, c, env, envs);
    InnerSolves(kernels, scan, before, outer, loop, c, env, envs, outBase, inBase, middle, j);
    OuterValues(scan, c, env, envs, outBase);
    InnerValues(scan, c, env, envs, inBase, middle, j);
    MadeStates(scan, loop, c, env, envs, outBase, inBase, middle, j);
    CompiledValidates(scan, loop, c);
    Places(scan, loop, c, e, es, j);
    BodyPlaces(scan, loop, c);
    ScanIterationStates(kernels, scan, env, envs, j);
    forall s | 0 <= s < loop.States() ensures es[j](loop.bodyInputs[2 + s]) == loop.StateAt(e, es, j, s) {
      if s < scan.States() {
        assert loop.bodyInputs[2 + s] == scan.bodyInputs[s];
      } else if s < |scan.inputs| {
        assert loop.bodyInputs[2 + scan.States() + (s - scan.States())] == c.ins[s - scan.States()];
        assert loop.StateAt(e, es, j, scan.States() + (s - scan.States())) == SeqAt(c, e, es, j, s - scan.States());
      } else {
        assert loop.bodyInputs[2 + |scan.inputs| + (s - |scan.inputs|)] == c.accIns[s - |scan.inputs|];
        assert loop.StateAt(e, es, j, |scan.inputs| + (s - |scan.inputs|)) == AccAt(c, e, es, j, s - |scan.inputs|);
      }
    }
  }

  lemma ScanIterationStates(kernels: Kernels, scan: Scan, env: Env, envs: seq<Env>, j: nat)
    requires scan.Run(kernels, env, envs) && j < |envs|
    ensures forall s :: 0 <= s < scan.States() ==> envs[j](scan.bodyInputs[s]) == scan.StateAt(env, envs, j, s)
  {
    assert scan.Iteration(kernels, env, envs, j);
  }

  lemma NotAnEnd(scan: Scan, loop: Loop, c: Added, s: nat)
    requires Lists(scan, loop, c) && s < |loop.outputs| && loop.outputs[s] !in loop.nulls
    ensures s < scan.States() || s >= |scan.inputs|
  {
    forall i | scan.States() <= i < |scan.inputs| ensures loop.outputs[i] in loop.nulls {
      assert loop.outputs[i] == c.ends[i - scan.States()] && c.ends[i - scan.States()] in SetOf(c.ends);
    }
  }

  lemma MadeResult(kernels: Kernels, scan: Scan, loop: Loop, c: Added, env: Env, envs: seq<Env>, outBase: nat,
                   inBase: nat, middle: nat, s: nat)
    requires Lists(scan, loop, c) && NewOutside(scan, c, outBase) && NewInside(scan, c, inBase, middle)
    requires scan.Run(kernels, env, envs) && loop.Fits() && s < loop.States() && loop.outputs[s] !in loop.nulls
    ensures OuterEnv(scan, c, env, envs)(loop.outputs[s])
      == loop.StateAt(OuterEnv(scan, c, env, envs), InnerEnvs(scan, c, env, envs), |envs|, s)
  {
    hide NewInside, OuterEnv, InnerEnv, InnerEnvs, scan.Run, loop.StateAt;
    NotAnEnd(scan, loop, c, s);
    if s < scan.States() {
      MadeState(kernels, scan, loop, c, env, envs, outBase, inBase, middle, s);
    } else {
      CompiledValidates(scan, loop, c);
      MadeColumn(scan, loop, c, env, envs, outBase, inBase, middle, s - |scan.inputs|);
    }
  }

  lemma MadeState(kernels: Kernels, scan: Scan, loop: Loop, c: Added, env: Env, envs: seq<Env>, outBase: nat,
                  inBase: nat, middle: nat, s: nat)
    requires Lists(scan, loop, c) && NewOutside(scan, c, outBase) && NewInside(scan, c, inBase, middle)
    requires scan.Run(kernels, env, envs) && loop.Fits() && s < loop.States() && s < scan.States()
    ensures OuterEnv(scan, c, env, envs)(loop.outputs[s])
      == loop.StateAt(OuterEnv(scan, c, env, envs), InnerEnvs(scan, c, env, envs), |envs|, s)
  {
    hide OuterEnv, InnerEnv, Alternating, Increasing, scan.Iteration, scan.Rows, scan.Column, loop.StateAt;
    var e, es, n := OuterEnv(scan, c, env, envs), InnerEnvs(scan, c, env, envs), |envs|;
    OuterValues(scan, c, env, envs, outBase);
    MadeStates(scan, loop, c, env, envs, outBase, inBase, middle, n);
    CompiledValidates(scan, loop, c);
    Places(scan, loop, c, e, es, n);
    assert loop.outputs[s] == scan.outputs[s] && scan.outputs[s] < outBase;
    assert env(scan.outputs[s]) == scan.StateAt(env, envs, n, s);
  }

  lemma MadeColumn(scan: Scan, loop: Loop, c: Added, env: Env, envs: seq<Env>, outBase: nat, inBase: nat, middle: nat,
                   o: nat)
    requires Lists(scan, loop, c) && NewOutside(scan, c, outBase) && NewInside(scan, c, inBase, middle)
    requires loop.Fits() && |scan.inputs| + o < loop.States()
    ensures OuterEnv(scan, c, env, envs)(loop.outputs[|scan.inputs| + o])
      == loop.StateAt(OuterEnv(scan, c, env, envs), InnerEnvs(scan, c, env, envs), |envs|, |scan.inputs| + o)
  {
    hide OuterEnv, InnerEnv, Alternating, Increasing, scan.Rows, scan.Column, loop.StateAt;
    var e, es, n := OuterEnv(scan, c, env, envs), InnerEnvs(scan, c, env, envs), |envs|;
    OuterValues(scan, c, env, envs, outBase);
    MadeStates(scan, loop, c, env, envs, outBase, inBase, middle, n);
    CompiledValidates(scan, loop, c);
    Places(scan, loop, c, e, es, n);
    assert loop.outputs[|scan.inputs| + o] == c.outs[o];
    assert loop.StateAt(e, es, n, |scan.inputs| + o) == AccAt(c, e, es, n, o);
  }

  lemma MadeResults(kernels: Kernels, scan: Scan, loop: Loop, c: Added, env: Env, envs: seq<Env>, outBase: nat,
                    inBase: nat, middle: nat)
    requires Lists(scan, loop, c) && NewOutside(scan, c, outBase) && NewInside(scan, c, inBase, middle)
    requires scan.Run(kernels, env, envs) && loop.Fits()
    ensures loop.Results(OuterEnv(scan, c, env, envs), InnerEnvs(scan, c, env, envs))
  {
    hide OuterEnv, InnerEnv, Solves, Alternating, Increasing, scan.Run, NewInside, NewOutside;
    CompiledValidates(scan, loop, c);
    forall s | 0 <= s < loop.States() && loop.outputs[s] !in loop.nulls
      ensures OuterEnv(scan, c, env, envs)(loop.outputs[s])
        == loop.StateAt(OuterEnv(scan, c, env, envs), InnerEnvs(scan, c, env, envs), |envs|, s)
    {
      MadeResult(kernels, scan, loop, c, env, envs, outBase, inBase, middle, s);
    }
  }

  /** Every run of the scan is matched by a run of the loop with the same old values. */
  lemma ScanRunsLoop(kernels: Kernels, scan: Scan, before: map<NodeId, Node>, outer: map<NodeId, Node>, loop: Loop,
                     c: Added, env: Env, envs: seq<Env>, outBase: nat, inBase: nat, middle: nat)
    returns (env': Env, envs': seq<Env>)
    requires Lists(scan, loop, c) && NewOutside(scan, c, outBase) && NewInside(scan, c, inBase, middle)
    requires NothingElse(scan, before, outer, loop.body, c, outBase, inBase)
    requires Solves(kernels, before, env) && scan.Run(kernels, env, envs)
    ensures Solves(kernels, outer, env') && loop.Run(kernels, env', envs')
    ensures forall v: ValueId :: v < outBase ==> env'(v) == env(v)
    ensures |envs'| == |envs| && forall j, v: ValueId :: 0 <= j < |envs| && v < inBase ==> envs'[j](v) == envs[j](v)
  {
    hide OuterEnv, InnerEnv, Solves, Alternating, NothingElse, scan.Run, loop.Iteration, loop.Results;
    env', envs' := OuterEnv(scan, c, env, envs), InnerEnvs(scan, c, env, envs);
    OuterSolves(kernels, scan, before, outer, loop, c, env, envs, outBase, inBase);
    CompiledValidates(scan, loop, c);
    forall j | 0 <= j < |envs|
      ensures loop.Iteration(kernels, env', envs', j) && forall v: ValueId :: v < inBase ==> envs'[j](v) == envs[j](v)
    {
      MadeIteration(kernels, scan, before, outer, loop, c, env, envs, outBase, inBase, middle, j);
      InnerValues(scan, c, env, envs, inBase, middle, j);
    }
    MadeResults(kernels, scan, loop, c, env, envs, outBase, inBase, middle);
    OuterValues(scan, c, env, envs, outBase);
    Places(scan, loop, c, env', envs', |envs|);
  }
}
