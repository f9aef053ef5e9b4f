/** compiler/subgraph_canonicalizer.cc: what lifting captured values does to a Loop and an If. */
module CanonicalizerMeaning {
  import opened Ir
  import opened GraphIr
  import opened Builder
  import opened Loops

  /** Captured values of a loop body, and what is made for each of them. */
  datatype Lift = Lift(
    required: seq<ValueId>,                        // in the body, written by nobody
    externals: seq<ValueId>,                       // outside, of the same name
    ins: seq<ValueId>, outs: seq<ValueId>,         // new inputs and outputs of the body
    dummies: seq<ValueId>)                         // new outputs of the loop

  ghost predicate Sizes(c: Lift) {
    |c.required| == |c.externals| == |c.ins| == |c.outs| == |c.dummies|
  }

  /** The captured values are further states, before the scan outputs. */
  ghost predicate Lists(loop: Loop, lifted: Loop, c: Lift) {
    && loop.Fits() && Sizes(c)
    && lifted.inputs == loop.inputs + c.externals
    && lifted.outputs == loop.outputs[..loop.States()] + c.dummies + loop.outputs[loop.States()..]
    && lifted.bodyInputs == loop.bodyInputs + c.ins
    && lifted.bodyOutputs == loop.bodyOutputs[..loop.States() + 1] + c.outs + loop.bodyOutputs[loop.States() + 1..]
    && lifted.nulls == loop.nulls
  }

  ghost predicate Copies(body: map<NodeId, Node>, c: Lift) {
    && Sizes(c)
    && (forall r :: 0 <= r < |c.required| ==> Has(body, Node(Identity, [c.ins[r]], [c.required[r]])))
    && (forall r :: 0 <= r < |c.required| ==> Has(body, Node(Identity, [c.ins[r]], [c.outs[r]])))
  }

  ghost predicate Lifted(loop: Loop, lifted: Loop, c: Lift) {
    Lists(loop, lifted, c) && Copies(lifted.body, c) && Within(loop.body, lifted.body)
  }

  /** In every iteration a captured value holds what it holds outside. */
  ghost predicate Captured(c: Lift, env: Env, envs: seq<Env>) {
    && Sizes(c)
    && forall j, r :: 0 <= j < |envs| && 0 <= r < |c.required| ==> envs[j](c.required[r]) == env(c.externals[r])
  }

  lemma LiftedFits(loop: Loop, lifted: Loop, c: Lift)
    requires Lists(loop, lifted, c)
    ensures lifted.Fits() && lifted.States() == loop.States() + |c.required|
    ensures loop.Validates() ==> lifted.Validates()
  {
  }

  function CopyAt(c: Lift, env: Env, envs: seq<Env>, j: nat, r: nat): Data
    requires j <= |envs| && r < |c.externals| && r < |c.outs|
  {
    if j == 0 then env(c.externals[r]) else envs[j - 1](c.outs[r])
  }

  /** States keep to their places in all four lists, also when there are scan outputs. */
  lemma Places(loop: Loop, lifted: Loop, c: Lift, env: Env, envs: seq<Env>, j: nat)
    requires Lists(loop, lifted, c) && lifted.Fits() && lifted.States() == loop.States() + |c.required| && j <= |envs|
    ensures forall s :: 0 <= s < loop.States() ==> lifted.StateAt(env, envs, j, s) == loop.StateAt(env, envs, j, s)
    ensures forall r :: 0 <= r < |c.required| ==>
      lifted.StateAt(env, envs, j, loop.States() + r) == CopyAt(c, env, envs, j, r)
    ensures lifted.Enters(env, envs, j) == loop.Enters(env, envs, j)
  {
  }

  lemma ListPlaces(loop: Loop, lifted: Loop, c: Lift)
    requires Lists(loop, lifted, c)
    ensures forall s :: 0 <= s < |loop.bodyInputs| ==> lifted.bodyInputs[s] == loop.bodyInputs[s]
    ensures forall r :: 0 <= r < |c.required| ==> lifted.bodyInputs[2 + loop.States() + r] == c.ins[r]
    ensures forall s :: 0 <= s < loop.States() ==> lifted.outputs[s] == loop.outputs[s]
    ensures forall r :: 0 <= r < |c.required| ==> lifted.outputs[loop.States() + r] == c.dummies[r]
  {
  }

  lemma ScanPlaces(loop: Loop, lifted: Loop, c: Lift, q: nat)
    requires Lists(loop, lifted, c) && loop.States() + q < |loop.outputs|
    ensures lifted.outputs[loop.States() + |c.required| + q] == loop.outputs[loop.States() + q]
    ensures lifted.bodyOutputs[1 + loop.States() + |c.required| + q] == loop.bodyOutputs[1 + loop.States() + q]
  {
  }

  lemma ScannedAlike(loop: Loop, lifted: Loop, c: Lift, envs: seq<Env>, q: nat)
    requires Lists(loop, lifted, c) && lifted.Fits() && lifted.States() == loop.States() + |c.required|
    requires loop.States() + q < |loop.outputs|
    ensures lifted.Scanned(envs, q) == loop.Scanned(envs, q)
  {
    ScanPlaces(loop, lifted, c, q);
  }

  lemma CopyMeans(kernels: Kernels, body: map<NodeId, Node>, c: Lift, benv: Env, r: nat)
    requires Copies(body, c) && Solves(kernels, body, benv) && r < |c.required|
    ensures benv(c.required[r]) == benv(c.ins[r]) == benv(c.outs[r])
  {
    hide Has, Solves, Holds;
    HasMeans(kernels, body, benv, Node(Identity, [c.ins[r]], [c.required[r]]));
    Unary(kernels, benv, Identity, c.ins[r], c.required[r]);
    HasMeans(kernels, body, benv, Node(Identity, [c.ins[r]], [c.outs[r]]));
    Unary(kernels, benv, Identity, c.ins[r], c.outs[r]);
  }

  /** A captured value is handed from iteration to iteration unchanged. */
  lemma {:induction false} HandedOn(kernels: Kernels, loop: Loop, lifted: Loop, c: Lift, env: Env, envs: seq<Env>,
                                    j: nat, r: nat)
    requires Lifted(loop, lifted, c) && lifted.Run(kernels, env, envs) && j <= |envs| && r < |c.required|
    ensures CopyAt(c, env, envs, j, r) == env(c.externals[r])
    ensures j < |envs| ==> envs[j](c.required[r]) == env(c.externals[r])
  {
    hide Has, Solves, Within;
    if j > 0 {
      HandedOn(kernels, loop, lifted, c, env, envs, j - 1, r);
      InsAre(kernels, loop, lifted, c, env, envs, j - 1, r);
    }
    if j < |envs| { InsAre(kernels, loop, lifted, c, env, envs, j, r); }
  }

  lemma InsAre(kernels: Kernels, loop: Loop, lifted: Loop, c: Lift, env: Env, envs: seq<Env>, j: nat, r: nat)
    requires Lifted(loop, lifted, c) && lifted.Run(kernels, env, envs) && j < |envs| && r < |c.required|
    ensures envs[j](c.ins[r]) == CopyAt(c, env, envs, j, r)
    ensures envs[j](c.required[r]) == envs[j](c.outs[r]) == envs[j](c.ins[r])
  {
    hide Solves, Within, Copies, lifted.Run, lifted.Enters, loop.Enters;
    LiftedFits(loop, lifted, c);
    RunIteration(kernels, lifted, env, envs, j);
    CopyMeans(kernels, lifted.body, c, envs[j], r);
    CopyPlace(loop, lifted, c, env, envs, j, r);
  }

  lemma CopyPlace(loop: Loop, lifted: Loop, c: Lift, env: Env, envs: seq<Env>, j: nat, r: nat)
    requires Lists(loop, lifted, c) && lifted.Fits() && lifted.States() == loop.States() + |c.required| && j < |envs|
    requires r < |c.required|
    requires forall s :: 0 <= s < lifted.States() ==>
      envs[j](lifted.bodyInputs[2 + s]) == lifted.StateAt(env, envs, j, s)
    ensures envs[j](c.ins[r]) == CopyAt(c, env, envs, j, r)
  {
    hide lifted.Enters, loop.Enters;
    Places(loop, lifted, c, env, envs, j);
    ListPlaces(loop, lifted, c);
    hide Lists, lifted.StateAt, loop.StateAt;
    assert envs[j](lifted.bodyInputs[2 + (loop.States() + r)]) == lifted.StateAt(env, envs, j, loop.States() + r);
  }

  /** Every run of the lifted loop is a run of the loop with its captured values. */
  lemma LiftedRunsLoop(kernels: Kernels, loop: Loop, lifted: Loop, c: Lift, env: Env, envs: seq<Env>)
    requires Lifted(loop, lifted, c) && lifted.Run(kernels, env, envs)
    ensures loop.Run(kernels, env, envs) && Captured(c, env, envs)
  {
    hide Has, Solves, Copies;
    LiftedFits(loop, lifted, c);
    ListPlaces(loop, lifted, c);
    forall j | 0 <= j < |envs| ensures loop.Iteration(kernels, env, envs, j) {
      Places(loop, lifted, c, env, envs, j);
      assert lifted.Iteration(kernels, env, envs, j);
      SolvesWithin(kernels, loop.body, lifted.body, envs[j]);
      forall s | 0 <= s < loop.States() ensures envs[j](loop.bodyInputs[2 + s]) == loop.StateAt(env, envs, j, s) {
        assert lifted.bodyInputs[2 + s] == loop.bodyInputs[2 + s];
      }
    }
    Places(loop, lifted, c, env, envs, |envs|);
    forall q | 0 <= q < |loop.outputs| - loop.States()
      ensures env(loop.outputs[loop.States() + q]) == loop.Scanned(envs, q)
    {
      ScannedAlike(loop, lifted, c, envs, q);
      ScanPlaces(loop, lifted, c, q);
      assert lifted.outputs[lifted.States() + q] == loop.outputs[loop.States() + q];
    }
    forall j, r | 0 <= j < |envs| && 0 <= r < |c.required| ensures envs[j](c.required[r]) == env(c.externals[r]) {
      HandedOn(kernels, loop, lifted, c, env, envs, j, r);
    }
  }

  // ---- every run of the loop is a run of the lifted loop ----

  ghost predicate AllDifferent(vs: seq<ValueId>, base: nat) {
    && (forall i :: 0 <= i < |vs| ==> vs[i] >= base)
    && (forall i, k :: 0 <= i < k < |vs| ==> vs[i] != vs[k])
  }

  ghost predicate Elsewhere(vs: seq<ValueId>, others: seq<ValueId>) {
    forall i :: 0 <= i < |vs| ==> vs[i] !in others
  }

  /** The new values are new, inside and outside. */
  ghost predicate NewValues(loop: Loop, lifted: Loop, c: Lift, inside: nat) {
    && Sizes(c) && AllDifferent(c.dummies, 0) && AllDifferent(c.ins + c.outs, inside)
    && Elsewhere(loop.inputs, c.dummies) && Elsewhere(loop.outputs, c.dummies) && Elsewhere(c.externals, c.dummies)
    && AllIn(loop.bodyInputs, inside) && AllIn(loop.bodyOutputs, inside) && AllIn(c.required, inside)
    && (forall n :: n in loop.body ==> BelowNode(loop.body[n], inside))
    && (forall n :: n in lifted.body ==>
          (n in loop.body && lifted.body[n] == loop.body[n]) || NewCopy(c, lifted.body[n]))
  }

  ghost predicate NewCopy(c: Lift, n: Node)
    requires Sizes(c)
  {
    exists r :: 0 <= r < |c.required| && (n == Node(Identity, [c.ins[r]], [c.required[r]])
                                          || n == Node(Identity, [c.ins[r]], [c.outs[r]]))
  }

  function OuterEnv(c: Lift, env: Env): Env
    requires Sizes(c)
  {
    (v: ValueId) => if v in c.dummies then env(c.externals[IndexOf(c.dummies, v)]) else env(v)
  }

  function InnerEnv(c: Lift, env: Env, benv: Env): Env
    requires Sizes(c)
  {
    (v: ValueId) =>
      if v in c.ins then env(c.externals[IndexOf(c.ins, v)])
      else if v in c.outs then env(c.externals[IndexOf(c.outs, v)])
      else benv(v)
  }

  lemma IndexOfDifferent(vs: seq<ValueId>, base: nat, i: nat)
    requires AllDifferent(vs, base) && i < |vs|
    ensures vs[i] in vs && IndexOf(vs, vs[i]) == i
  {
  }

  lemma OuterValues(loop: Loop, lifted: Loop, c: Lift, env: Env, inside: nat)
    requires NewValues(loop, lifted, c, inside)
    ensures forall v: ValueId :: v !in c.dummies ==> OuterEnv(c, env)(v) == env(v)
    ensures forall r :: 0 <= r < |c.required| ==> OuterEnv(c, env)(c.dummies[r]) == env(c.externals[r])
  {
    hide IndexOf;
    forall r | 0 <= r < |c.required| ensures OuterEnv(c, env)(c.dummies[r]) == env(c.externals[r]) {
      IndexOfDifferent(c.dummies, 0, r);
    }
  }

  lemma InnerValues(loop: Loop, lifted: Loop, c: Lift, env: Env, benv: Env, inside: nat)
    requires NewValues(loop, lifted, c, inside)
    ensures forall v: ValueId :: v < inside ==> InnerEnv(c, env, benv)(v) == benv(v)
    ensures forall r :: 0 <= r < |c.required| ==>
      InnerEnv(c, env, benv)(c.ins[r]) == InnerEnv(c, env, benv)(c.outs[r]) == env(c.externals[r])
  {
    hide IndexOf;
    var all := c.ins + c.outs;
    assert forall i :: 0 <= i < |c.ins| ==> all[i] == c.ins[i];
    assert forall i :: 0 <= i < |c.outs| ==> all[|c.ins| + i] == c.outs[i];
    assert AllDifferent(c.ins, inside) && AllDifferent(c.outs, inside);
    forall r | 0 <= r < |c.required|
      ensures InnerEnv(c, env, benv)(c.ins[r]) == InnerEnv(c, env, benv)(c.outs[r]) == env(c.externals[r])
    {
      IndexOfDifferent(c.ins, inside, r);
      IndexOfDifferent(c.outs, inside, r);
      assert c.outs[r] !in c.ins;
    }
  }

  lemma InnerSolves(kernels: Kernels, loop: Loop, lifted: Loop, c: Lift, env: Env, benv: Env, inside: nat)
    requires NewValues(loop, lifted, c, inside) && Solves(kernels, loop.body, benv)
    requires forall r :: 0 <= r < |c.required| ==> benv(c.required[r]) == env(c.externals[r])
    ensures Solves(kernels, lifted.body, InnerEnv(c, env, benv))
  {
    hide InnerEnv, Holds;
    var e := InnerEnv(c, env, benv);
    InnerValues(loop, lifted, c, env, benv, inside);
    forall n | n in lifted.body ensures Holds(kernels, lifted.body[n], e) {
      if n in loop.body && lifted.body[n] == loop.body[n] {
        assert BelowNode(loop.body[n], inside);
        HoldsAlike(kernels, loop.body[n], benv, e);
      } else {
        var r :| 0 <= r < |c.required|
          && (lifted.body[n] == Node(Identity, [c.ins[r]], [c.required[r]])
              || lifted.body[n] == Node(Identity, [c.ins[r]], [c.outs[r]]));
        IdentityHolds(kernels, e, c.ins[r], c.required[r]);
        IdentityHolds(kernels, e, c.ins[r], c.outs[r]);
      }
    }
  }

  function InnerEnvs(c: Lift, env: Env, envs: seq<Env>): (r: seq<Env>)
    requires Sizes(c)
    ensures |r| == |envs| && forall j :: 0 <= j < |envs| ==> r[j] == InnerEnv(c, env, envs[j])
  {
    seq(|envs|, j requires 0 <= j < |envs| => InnerEnv(c, env, envs[j]))
  }

  /** The states before iteration `j` of the run that is made. */
  lemma MadeStates(loop: Loop, lifted: Loop, c: Lift, env: Env, envs: seq<Env>, inside: nat, j: nat)
    requires Lists(loop, lifted, c) && NewValues(loop, lifted, c, inside) && j <= |envs|
    ensures var e, es := OuterEnv(c, env), InnerEnvs(c, env, envs);
      && (forall s :: 0 <= s < loop.States() ==> loop.StateAt(e, es, j, s) == loop.StateAt(env, envs, j, s))
      && (forall r :: 0 <= r < |c.required| ==> CopyAt(c, e, es, j, r) == env(c.externals[r]))
      && loop.Enters(e, es, j) == loop.Enters(env, envs, j)
  {
    hide OuterEnv, InnerEnv;
    OuterValues(loop, lifted, c, env, inside);
    if j > 0 { InnerValues(loop, lifted, c, env, envs[j - 1], inside); }
  }

  lemma MadeIteration(kernels: Kernels, loop: Loop, lifted: Loop, c: Lift, env: Env, envs: seq<Env>, inside: nat,
                      j: nat)
    requires Lists(loop, lifted, c) && NewValues(loop, lifted, c, inside) && lifted.Fits()
    requires loop.Run(kernels, env, envs) && Captured(c, env, envs) && j < |envs|
    ensures lifted.Iteration(kernels, OuterEnv(c, env), InnerEnvs(c, env, envs), j)
  {
    hide OuterEnv, InnerEnv, Solves, NewValues, loop.StateAt, loop.Enters;
    var e, es := OuterEnv(c, env), InnerEnvs(c, env, envs);
    assert loop.Iteration(kernels, env, envs, j);
    InnerSolves(kernels, loop, lifted, c, env, envs[j], inside);
    InnerValues(loop, lifted, c, env, envs[j], inside);
    MadeStates(loop, lifted, c, env, envs, inside, j);
    LiftedFits(loop, lifted, c);
    Places(loop, lifted, c, e, es, j);
    ListPlaces(loop, lifted, c);
    OldInputs(loop, lifted, c, inside);
    forall s | 0 <= s < lifted.States() ensures es[j](lifted.bodyInputs[2 + s]) == lifted.StateAt(e, es, j, s) {
      if s < loop.States() {
        assert lifted.bodyInputs[2 + s] == loop.bodyInputs[2 + s] && loop.bodyInputs[2 + s] < inside;
      } else {
        var r := s - loop.States();
        assert lifted.bodyInputs[2 + loop.States() + r] == c.ins[r];
        assert lifted.StateAt(e, es, j, loop.States() + r) == CopyAt(c, e, es, j, r);
      }
    }
    assert lifted.bodyInputs[0] == loop.bodyInputs[0] && lifted.bodyInputs[1] == loop.bodyInputs[1];
  }

  lemma OldInputs(loop: Loop, lifted: Loop, c: Lift, inside: nat)
    requires NewValues(loop, lifted, c, inside)
    ensures forall s :: 0 <= s < |loop.bodyInputs| ==> loop.bodyInputs[s] < inside
    ensures forall s :: 0 <= s < |loop.outputs| ==> loop.outputs[s] !in c.dummies
    ensures forall s :: 0 <= s < |loop.bodyOutputs| ==> loop.bodyOutputs[s] < inside
  {
  }

  lemma MadeResults(kernels: Kernels, loop: Loop, lifted: Loop, c: Lift, env: Env, envs: seq<Env>, inside: nat)
    requires Lists(loop, lifted, c) && NewValues(loop, lifted, c, inside) && lifted.Fits()
    requires loop.Run(kernels, env, envs)
    ensures lifted.Results(OuterEnv(c, env), InnerEnvs(c, env, envs))
  {
    hide OuterEnv, InnerEnv, Solves, NewValues, loop.StateAt, loop.Enters, loop.Iteration, loop.Scanned, lifted.Scanned,
      lifted.StateAt;
    var e, es := OuterEnv(c, env), InnerEnvs(c, env, envs);
    LiftedFits(loop, lifted, c);
    MadeStates(loop, lifted, c, env, envs, inside, |envs|);
    Places(loop, lifted, c, e, es, |envs|);
    ListPlaces(loop, lifted, c);
    OuterValues(loop, lifted, c, env, inside);
    OldInputs(loop, lifted, c, inside);
    forall s | 0 <= s < lifted.States() && lifted.outputs[s] !in lifted.nulls
      ensures e(lifted.outputs[s]) == lifted.StateAt(e, es, |envs|, s)
    {
      if s < loop.States() {
        assert lifted.outputs[s] == loop.outputs[s];
      } else {
        assert lifted.outputs[loop.States() + (s - loop.States())] == c.dummies[s - loop.States()];
        assert lifted.StateAt(e, es, |envs|, loop.States() + (s - loop.States())) == CopyAt(c, e, es, |envs|,
                              s - loop.States());
      }
    }
    forall q | 0 <= q < |lifted.outputs| - lifted.States()
      ensures e(lifted.outputs[lifted.States() + q]) == lifted.Scanned(es, q)
    {
      ScannedAlike(loop, lifted, c, es, q);
      ScanPlaces(loop, lifted, c, q);
      assert lifted.outputs[loop.States() + |c.required| + q] == loop.outputs[loop.States() + q];
      ScannedSame(loop, lifted, c, env, envs, inside, q);
    }
  }

  lemma ScannedSame(loop: Loop, lifted: Loop, c: Lift, env: Env, envs: seq<Env>, inside: nat, q: nat)
    requires NewValues(loop, lifted, c, inside) && loop.Fits() && loop.States() + q < |loop.outputs|
    ensures loop.Scanned(InnerEnvs(c, env, envs), q) == loop.Scanned(envs, q)
  {
    hide InnerEnv;
    var es, v := InnerEnvs(c, env, envs), loop.bodyOutputs[1 + loop.States() + q];
    forall j | 0 <= j < |envs| ensures es[j](v) == envs[j](v) {
      InnerValues(loop, lifted, c, env, envs[j], inside);
    }
  }

  /** Every run of the loop with its captured values is matched by a run of the lifted loop. */
  lemma LoopRunsLifted(kernels: Kernels, loop: Loop, lifted: Loop, c: Lift, env: Env, envs: seq<Env>, inside: nat)
    returns (env': Env, envs': seq<Env>)
    requires Lists(loop, lifted, c) && NewValues(loop, lifted, c, inside)
    requires loop.Run(kernels, env, envs) && Captured(c, env, envs)
    ensures lifted.Run(kernels, env', envs') && |envs'| == |envs|
    ensures forall v: ValueId :: v !in c.dummies ==> env'(v) == env(v)
    ensures forall j, v: ValueId :: 0 <= j < |envs| && v < inside ==> envs'[j](v) == envs[j](v)
  {
    hide OuterEnv, InnerEnv, Solves, NewValues, loop.StateAt, loop.Enters, lifted.Enters, lifted.Iteration,
      lifted.Results, loop.Scanned;
    env', envs' := OuterEnv(c, env), InnerEnvs(c, env, envs);
    LiftedFits(loop, lifted, c);
    forall j | 0 <= j < |envs|
      ensures lifted.Iteration(kernels, env', envs', j) && forall v: ValueId :: v < inside ==> envs'[j](v) == envs[j](v)
    {
      MadeIteration(kernels, loop, lifted, c, env, envs, inside, j);
      InnerValues(loop, lifted, c, env, envs[j], inside);
    }
    MadeStates(loop, lifted, c, env, envs, inside, |envs|);
    Places(loop, lifted, c, env', envs', |envs|);
    MadeResults(kernels, loop, lifted, c, env, envs, inside);
    OuterValues(loop, lifted, c, env, inside);
  }

  // ---- If ----

  /** One branch: a graph with inputs and outputs. */
  datatype Branch = Branch(node: map<NodeId, Node>, inputs: seq<ValueId>, outputs: seq<ValueId>)

  /** An If node: condition and arguments, results, two branches. */
  datatype If = If(inputs: seq<ValueId>, outputs: seq<ValueId>, thenBranch: Branch, elseBranch: Branch)
  {
    /** Node::Validate. */
    ghost predicate Validates() {
      && 0 < |inputs| && |thenBranch.inputs| + 1 == |inputs| == |elseBranch.inputs| + 1
      && |thenBranch.outputs| == |outputs| == |elseBranch.outputs|
    }

    ghost predicate Run(kernels: Kernels, env: Env, benv: Env) {
      && Validates() && env(inputs[0]).Bool?
      && Runs(kernels, if env(inputs[0]).b then thenBranch else elseBranch, inputs[1..], outputs, env, benv)
    }
  }

  /** A branch runs on the arguments. */
  ghost predicate Runs(kernels: Kernels, branch: Branch, args: seq<ValueId>, results: seq<ValueId>, env: Env,
                       benv: Env) {
    && |branch.inputs| == |args| && |branch.outputs| == |results| && Solves(kernels, branch.node, benv)
    && (forall i :: 0 <= i < |args| ==> benv(branch.inputs[i]) == env(args[i]))
    && (forall i :: 0 <= i < |results| ==> env(results[i]) == benv(branch.outputs[i]))
  }

  /** What a branch gains: an input for every external value, copied to the captured value of
      that name where the branch has one. */
  datatype BranchLift = BranchLift(ins: seq<ValueId>, captured: seq<seq<ValueId>>)

  ghost predicate BranchLifted(branch: Branch, lifted: Branch, externals: seq<ValueId>, c: BranchLift) {
    && |c.ins| == |c.captured| == |externals|
    && lifted.inputs == branch.inputs + c.ins && lifted.outputs == branch.outputs && Within(branch.node, lifted.node)
    && (forall r :: 0 <= r < |externals| ==> CopiedTo(lifted.node, c.ins[r], c.captured[r]))
  }

  ghost predicate CopiedTo(node: map<NodeId, Node>, x: ValueId, vs: seq<ValueId>) {
    forall v :: v in vs ==> Has(node, Node(Identity, [x], [v]))
  }

  ghost predicate BranchCaptured(externals: seq<ValueId>, c: BranchLift, env: Env, benv: Env) {
    && |c.captured| == |externals|
    && forall r, v :: 0 <= r < |externals| && v in c.captured[r] ==> benv(v) == env(externals[r])
  }

  lemma LiftedRunsBranch(kernels: Kernels, branch: Branch, lifted: Branch, externals: seq<ValueId>, c: BranchLift,
                         args: seq<ValueId>, results: seq<ValueId>, env: Env, benv: Env)
    requires BranchLifted(branch, lifted, externals, c) && |branch.inputs| == |args|
    requires Runs(kernels, lifted, args + externals, results, env, benv)
    ensures Runs(kernels, branch, args, results, env, benv) && BranchCaptured(externals, c, env, benv)
  {
    hide Solves, Has, Holds;
    SolvesWithin(kernels, branch.node, lifted.node, benv);
    forall i | 0 <= i < |args| ensures benv(branch.inputs[i]) == env(args[i]) {
      assert lifted.inputs[i] == branch.inputs[i] && (args + externals)[i] == args[i];
    }
    forall r, v | 0 <= r < |externals| && v in c.captured[r] ensures benv(v) == env(externals[r]) {
      assert lifted.inputs[|args| + r] == c.ins[r] && (args + externals)[|args| + r] == externals[r];
      assert CopiedTo(lifted.node, c.ins[r], c.captured[r]);
      HasMeans(kernels, lifted.node, benv, Node(Identity, [c.ins[r]], [v]));
      Unary(kernels, benv, Identity, c.ins[r], v);
    }
  }

  ghost predicate NewInBranch(branch: Branch, lifted: Branch, externals: seq<ValueId>, c: BranchLift, base: nat) {
    && |c.ins| == |c.captured| == |externals| && AllDifferent(c.ins, base)
    && AllIn(branch.inputs, base) && AllIn(branch.outputs, base)
    && (forall r, v :: 0 <= r < |externals| && v in c.captured[r] ==> v < base)
    && (forall n :: n in branch.node ==> BelowNode(branch.node[n], base))
    && (forall n :: n in lifted.node ==>
          (n in branch.node && lifted.node[n] == branch.node[n]) || NewBranchCopy(externals, c, lifted.node[n]))
  }

  ghost predicate NewBranchCopy(externals: seq<ValueId>, c: BranchLift, n: Node)
    requires |c.ins| == |c.captured| == |externals|
  {
    exists r, v :: 0 <= r < |externals| && v in c.captured[r] && n == Node(Identity, [c.ins[r]], [v])
  }

  function BranchEnv(externals: seq<ValueId>, c: BranchLift, env: Env, benv: Env): Env
    requires |c.ins| == |externals|
  {
    (v: ValueId) => if v in c.ins then env(externals[IndexOf(c.ins, v)]) else benv(v)
  }

  lemma BranchEnvMeans(externals: seq<ValueId>, c: BranchLift, env: Env, benv: Env, base: nat)
    requires |c.ins| == |externals| && AllDifferent(c.ins, base)
    ensures forall r :: 0 <= r < |externals| ==> BranchEnv(externals, c, env, benv)(c.ins[r]) == env(externals[r])
    ensures forall v: ValueId :: v < base ==> BranchEnv(externals, c, env, benv)(v) == benv(v)
  {
    hide IndexOf;
    forall r | 0 <= r < |externals| ensures BranchEnv(externals, c, env, benv)(c.ins[r]) == env(externals[r]) {
      IndexOfDifferent(c.ins, base, r);
    }
  }

  lemma BranchCopyHolds(kernels: Kernels, externals: seq<ValueId>, c: BranchLift, env: Env, benv: Env, base: nat,
                        n: Node)
    requires |c.ins| == |c.captured| == |externals| && AllDifferent(c.ins, base)
    requires BranchCaptured(externals, c, env, benv)
    requires forall r, v :: 0 <= r < |externals| && v in c.captured[r] ==> v < base
    requires NewBranchCopy(externals, c, n)
    ensures Holds(kernels, n, BranchEnv(externals, c, env, benv))
  {
    hide IndexOf, Holds, BranchEnv;
    BranchEnvMeans(externals, c, env, benv, base);
    var r, v :| 0 <= r < |externals| && v in c.captured[r] && n == Node(Identity, [c.ins[r]], [v]);
    IdentityHolds(kernels, BranchEnv(externals, c, env, benv), c.ins[r], v);
  }

  lemma BranchRunsLifted(kernels: Kernels, branch: Branch, lifted: Branch, externals: seq<ValueId>, c: BranchLift,
                         args: seq<ValueId>, results: seq<ValueId>, env: Env, benv: Env, base: nat)
    requires BranchLifted(branch, lifted, externals, c) && NewInBranch(branch, lifted, externals, c, base)
    requires Runs(kernels, branch, args, results, env, benv) && BranchCaptured(externals, c, env, benv)
    ensures Runs(kernels, lifted, args + externals, results, env, BranchEnv(externals, c, env, benv))
    ensures forall v: ValueId :: v < base ==> BranchEnv(externals, c, env, benv)(v) == benv(v)
  {
    hide IndexOf, Holds, Has, BranchEnv, BranchCaptured, NewBranchCopy;
    var e := BranchEnv(externals, c, env, benv);
    BranchEnvMeans(externals, c, env, benv, base);
    forall n | n in lifted.node ensures Holds(kernels, lifted.node[n], e) {
      if n in branch.node && lifted.node[n] == branch.node[n] {
        assert BelowNode(branch.node[n], base);
        HoldsAlike(kernels, branch.node[n], benv, e);
      } else {
        BranchCopyHolds(kernels, externals, c, env, benv, base, lifted.node[n]);
      }
    }
    forall i | 0 <= i < |args + externals| ensures e(lifted.inputs[i]) == env((args + externals)[i]) {
      if i < |args| {
        assert lifted.inputs[i] == branch.inputs[i];
      } else {
        assert lifted.inputs[i] == c.ins[i - |args|];
      }
    }
  }

  /** The If with its branches lifted. */
  ghost predicate IfLifted(n: If, lifted: If, externals: seq<ValueId>, t: BranchLift, e: BranchLift) {
    && n.Validates() && lifted.inputs == n.inputs + externals && lifted.outputs == n.outputs
    && BranchLifted(n.thenBranch, lifted.thenBranch, externals, t)
    && BranchLifted(n.elseBranch, lifted.elseBranch, externals, e)
  }

  /** The branch that is taken has its captured values. */
  ghost predicate IfCaptured(n: If, externals: seq<ValueId>, t: BranchLift, e: BranchLift, env: Env, benv: Env)
    requires n.Validates()
  {
    env(n.inputs[0]).Bool? && BranchCaptured(externals, if env(n.inputs[0]).b then t else e, env, benv)
  }

  /** A run of the lifted If is a run of the If with its captured values, and the other way round. */
  lemma LiftedRunsIf(kernels: Kernels, n: If, lifted: If, externals: seq<ValueId>, t: BranchLift, e: BranchLift,
                     env: Env, benv: Env)
    requires IfLifted(n, lifted, externals, t, e)
    ensures lifted.Validates()
    ensures lifted.Run(kernels, env, benv) ==> n.Run(kernels, env, benv) && IfCaptured(n, externals, t, e, env, benv)
  {
    hide Runs, BranchCaptured;
    assert lifted.inputs[1..] == n.inputs[1..] + externals;
    if lifted.Run(kernels, env, benv) {
      if env(n.inputs[0]).b {
        LiftedRunsBranch(kernels, n.thenBranch, lifted.thenBranch, externals, t, n.inputs[1..], n.outputs, env, benv);
      } else {
        LiftedRunsBranch(kernels, n.elseBranch, lifted.elseBranch, externals, e, n.inputs[1..], n.outputs, env, benv);
      }
    }
  }

  lemma IfRunsLifted(kernels: Kernels, n: If, lifted: If, externals: seq<ValueId>, t: BranchLift, e: BranchLift,
                     env: Env, benv: Env, thenBase: nat, elseBase: nat)
    returns (benv': Env)
    requires IfLifted(n, lifted, externals, t, e) && n.Run(kernels, env, benv)
    requires IfCaptured(n, externals, t, e, env, benv)
    requires NewInBranch(n.thenBranch, lifted.thenBranch, externals, t, thenBase)
    requires NewInBranch(n.elseBranch, lifted.elseBranch, externals, e, elseBase)
    ensures lifted.Run(kernels, env, benv')
    ensures forall v: ValueId :: v < (if env(n.inputs[0]).b then thenBase else elseBase) ==> benv'(v) == benv(v)
  {
    hide Runs, BranchCaptured, NewInBranch, BranchEnv;
    assert lifted.inputs[1..] == n.inputs[1..] + externals;
    BranchSizes(n.thenBranch, lifted.thenBranch, externals, t);
    BranchSizes(n.elseBranch, lifted.elseBranch, externals, e);
    if env(n.inputs[0]).b {
      BranchRunsLifted(kernels, n.thenBranch, lifted.thenBranch, externals, t, n.inputs[1..], n.outputs, env, benv,
                       thenBase);
      benv' := BranchEnv(externals, t, env, benv);
    } else {
      BranchRunsLifted(kernels, n.elseBranch, lifted.elseBranch, externals, e, n.inputs[1..], n.outputs, env, benv,
                       elseBase);
      benv' := BranchEnv(externals, e, env, benv);
    }
  }

  lemma BranchSizes(branch: Branch, lifted: Branch, externals: seq<ValueId>, c: BranchLift)
    requires BranchLifted(branch, lifted, externals, c)
    ensures |c.ins| == |externals| && |lifted.inputs| == |branch.inputs| + |externals|
    ensures |lifted.outputs| == |branch.outputs|
  {
  }
}
