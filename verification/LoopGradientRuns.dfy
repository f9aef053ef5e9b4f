/** The two loops of LoopGradFn (compiler/gradient_ops.cc) can be run: every run of the loop as it
    was gives one of the loop with its counter and stacks, and then one of the backward loop, with
    as many steps, whatever gradients come in. */
module LoopGradientRuns {
  import opened Ir
  import opened GraphIr
  import opened Builder
  import opened GradientOps
  import opened GradientRuns
  import opened Loops
  import opened LoopGradientMeaning

  /** `env` with other values at `vs`. */
  function Set(env: Env, vs: seq<ValueId>, ds: seq<Data>): Env
    requires |vs| == |ds|
  {
    (v: ValueId) => if v in vs then ds[IndexOf(vs, v)] else env(v)
  }

  lemma SetMeans(env: Env, vs: seq<ValueId>, ds: seq<Data>)
    requires |vs| == |ds| && Distinct(vs)
    ensures forall i :: 0 <= i < |vs| ==> Set(env, vs, ds)(vs[i]) == ds[i]
    ensures forall v: ValueId :: v !in vs ==> Set(env, vs, ds)(v) == env(v)
  {
    forall i | 0 <= i < |vs| ensures Set(env, vs, ds)(vs[i]) == ds[i] {
      var k := IndexOf(vs, vs[i]);
      assert vs[k] == vs[i];
      assert k == i;
    }
  }

  lemma SetAt(env: Env, vs: seq<ValueId>, ds: seq<Data>, i: nat)
    requires |vs| == |ds| && Distinct(vs) && i < |vs|
    ensures Set(env, vs, ds)(vs[i]) == ds[i]
  {
    SetMeans(env, vs, ds);
  }

  lemma SetElsewhere(env: Env, vs: seq<ValueId>, ds: seq<Data>, v: ValueId)
    requires |vs| == |ds| && v !in vs
    ensures Set(env, vs, ds)(v) == env(v)
  {
  }

  lemma SetKeepsBelow(env: Env, vs: seq<ValueId>, ds: seq<Data>, bound: nat)
    requires |vs| == |ds| && forall i :: 0 <= i < |vs| ==> bound <= vs[i]
    ensures AgreeBelow(env, Set(env, vs, ds), bound)
  {
  }

  ghost predicate AgreeAt(vs: seq<ValueId>, a: Env, b: Env) {
    forall i :: 0 <= i < |vs| ==> a(vs[i]) == b(vs[i])
  }

  // ---- the forward loop ----

  function CountIns(p: Pushes): seq<ValueId> {
    [p.countIn] + p.pushIns
  }

  ghost predicate Countable(p: Pushes, start: Env) {
    start(p.countIn).Int? && forall r :: 0 <= r < |p.pushIns| ==> start(p.pushIns[r]).Sequence?
  }

  /** With any count and any stacks to start with, a run of the body becomes one of the body that
      counts and pushes. */
  ghost predicate ForwardBodyRuns(body0: map<NodeId, Node>, body: map<NodeId, Node>, p: Pushes, inside: nat) {
    forall kernels: Kernels, benv: Env, start: Env :: Solves(kernels, body0, benv) && Countable(p, start) ==>
      ForwardBodyContinues(kernels, body, p, inside, benv, start)
  }

  ghost predicate ForwardBodyContinues(kernels: Kernels, body: map<NodeId, Node>, p: Pushes, inside: nat, benv: Env,
                                       start: Env) {
    exists benv': Env :: Solves(kernels, body, benv') && AgreeBelow(benv, benv', inside)
      && AgreeAt(CountIns(p), start, benv')
  }

  /** Iteration `j` continues that of the loop as it was, and has its count and its stacks. */
  ghost predicate Continued(kernels: Kernels, body: map<NodeId, Node>, p: Pushes, inside: nat, envs0: seq<Env>,
                            envs: seq<Env>, j: nat) {
    && j < |envs| <= |envs0| && |p.pushIns| == |p.values|
    && Solves(kernels, body, envs[j]) && AgreeBelow(envs0[j], envs[j], inside)
    && envs[j](p.countIn) == Int(j)
    && forall r :: 0 <= r < |p.values| ==> envs[j](p.pushIns[r]) == Sequence(Pushed(envs, p.values[r], j))
  }

  lemma ContinuedLater(kernels: Kernels, body: map<NodeId, Node>, p: Pushes, inside: nat, envs0: seq<Env>,
                       envs: seq<Env>, e: Env, j: nat)
    requires Continued(kernels, body, p, inside, envs0, envs, j) && |envs| < |envs0|
    ensures Continued(kernels, body, p, inside, envs0, envs + [e], j)
  {
    hide Solves;
    forall r | 0 <= r < |p.values| ensures Pushed(envs + [e], p.values[r], j) == Pushed(envs, p.values[r], j) {}
  }

  function CountAndStacks(p: Pushes, envs: seq<Env>): seq<Data> {
    [Int(|envs|)] + seq(|p.values|, r requires 0 <= r < |p.values| => Sequence(Pushed(envs, p.values[r], |envs|)))
  }

  lemma {:induction false} ForwardBuilt(kernels: Kernels, body0: map<NodeId, Node>, body: map<NodeId, Node>, p: Pushes,
                                        inside: nat, envs0: seq<Env>, k: nat)
    returns (envs: seq<Env>)
    requires ForwardBodyRuns(body0, body, p, inside) && Distinct(CountIns(p)) && |p.pushIns| == |p.values|
    requires k <= |envs0|
    requires forall j :: 0 <= j < |envs0| ==> Solves(kernels, body0, envs0[j])
    ensures |envs| == k && forall j :: 0 <= j < k ==> Continued(kernels, body, p, inside, envs0, envs, j)
  {
    hide Solves, Set, Continued, CountAndStacks, Countable, CountIns;
    if k == 0 { return []; }
    var before := ForwardBuilt(kernels, body0, body, p, inside, envs0, k - 1);
    var nothing: Env := (v: ValueId) => Null;
    StartSizes(p, before);
    var start := Set(nothing, CountIns(p), CountAndStacks(p, before));
    SetMeans(nothing, CountIns(p), CountAndStacks(p, before));
    StartMeans(p, before, start);
    assert ForwardBodyContinues(kernels, body, p, inside, envs0[k - 1], start);
    var e: Env :| Solves(kernels, body, e) && AgreeBelow(envs0[k - 1], e, inside) && AgreeAt(CountIns(p), start, e);
    envs := before + [e];
    LastContinued(kernels, body, p, inside, envs0, before, e, start);
    forall j | 0 <= j < k ensures Continued(kernels, body, p, inside, envs0, envs, j) {
      if j < k - 1 { ContinuedLater(kernels, body, p, inside, envs0, before, e, j); }
    }
  }

  lemma StartSizes(p: Pushes, envs: seq<Env>)
    requires |p.pushIns| == |p.values|
    ensures |CountIns(p)| == |CountAndStacks(p, envs)|
  {
  }

  lemma StartMeans(p: Pushes, envs: seq<Env>, start: Env)
    requires |p.pushIns| == |p.values| && |CountIns(p)| == |CountAndStacks(p, envs)|
    requires forall i :: 0 <= i < |CountIns(p)| ==> start(CountIns(p)[i]) == CountAndStacks(p, envs)[i]
    ensures start(p.countIn) == Int(|envs|) && Countable(p, start)
    ensures forall r :: 0 <= r < |p.values| ==> start(p.pushIns[r]) == Sequence(Pushed(envs, p.values[r], |envs|))
  {
    assert CountIns(p)[0] == p.countIn;
    forall r | 0 <= r < |p.values| ensures start(p.pushIns[r]) == Sequence(Pushed(envs, p.values[r], |envs|)) {
      assert CountIns(p)[1 + r] == p.pushIns[r];
    }
  }

  lemma LastContinued(kernels: Kernels, body: map<NodeId, Node>, p: Pushes, inside: nat, envs0: seq<Env>,
                      before: seq<Env>, e: Env, start: Env)
    requires |before| < |envs0| && |p.pushIns| == |p.values|
    requires Solves(kernels, body, e) && AgreeBelow(envs0[|before|], e, inside) && AgreeAt(CountIns(p), start, e)
    requires start(p.countIn) == Int(|before|)
    requires forall r :: 0 <= r < |p.values| ==> start(p.pushIns[r]) == Sequence(Pushed(before, p.values[r], |before|))
    ensures Continued(kernels, body, p, inside, envs0, before + [e], |before|)
  {
    hide Solves;
    var envs, k := before + [e], |before|;
    assert CountIns(p)[0] == p.countIn;
    forall r | 0 <= r < |p.values| ensures envs[k](p.pushIns[r]) == Sequence(Pushed(envs, p.values[r], k)) {
      assert CountIns(p)[1 + r] == p.pushIns[r];
      assert Pushed(envs, p.values[r], k) == Pushed(before, p.values[r], k);
    }
  }

  /** What an iteration leaves: the next count and the longer stacks. */
  lemma IterationLeaves(kernels: Kernels, outer: map<NodeId, Node>, fwd: Loop, p: Pushes, inside: nat, envs0: seq<Env>,
                        envs: seq<Env>, j: nat)
    requires Counts(outer, fwd.body, p) && Stacks(outer, fwd.body, p)
    requires Continued(kernels, fwd.body, p, inside, envs0, envs, j)
    ensures envs[j](p.countOut) == Int(j + 1)
    ensures forall r :: 0 <= r < |p.values| ==> envs[j](p.pushOuts[r]) == Sequence(Pushed(envs, p.values[r], j + 1))
  {
    hide Solves, Has, Counts, Stacks;
    CountStep(kernels, outer, fwd, p, envs[j], j);
    StackSizes(outer, fwd.body, p);
    forall r | 0 <= r < |p.values| ensures envs[j](p.pushOuts[r]) == Sequence(Pushed(envs, p.values[r], j + 1)) {
      PushStep(kernels, outer, fwd, p, envs[j], r, Pushed(envs, p.values[r], j));
      assert Pushed(envs, p.values[r], j + 1) == Pushed(envs, p.values[r], j) + [envs[j](p.values[r])];
    }
  }

  lemma StackSizes(outer: map<NodeId, Node>, body: map<NodeId, Node>, p: Pushes)
    requires Stacks(outer, body, p)
    ensures |p.pushIns| == |p.pushOuts| == |p.stackIns| == |p.stackOuts| == |p.values|
  {
  }

  /** Values outside, as the forward loop starts and ends. */
  ghost predicate OutsideFits(p: Pushes, env: Env, envs: seq<Env>) {
    && |p.stackIns| == |p.stackOuts| == |p.values|
    && env(p.zero) == Int(0) && (forall r :: 0 <= r < |p.values| ==> env(p.stackIns[r]) == Sequence([]))
    && env(p.count) == Int(|envs|)
    && (forall r :: 0 <= r < |p.values| ==> env(p.stackOuts[r]) == Sequence(Pushed(envs, p.values[r], |envs|)))
  }

  lemma StatesContinue(kernels: Kernels, outer: map<NodeId, Node>, loop: Loop, fwd: Loop, p: Pushes, inside: nat,
                       env: Env, envs0: seq<Env>, envs: seq<Env>, j: nat)
    requires Forward(outer, loop, fwd, p) && |envs| == |envs0| && j <= |envs| && OutsideFits(p, env, envs)
    requires forall i :: 0 <= i < |envs| ==> Continued(kernels, fwd.body, p, inside, envs0, envs, i)
    requires AllIn(loop.bodyInputs, inside) && AllIn(loop.bodyOutputs, inside)
    ensures fwd.Fits() && fwd.States() == loop.States() + 1 + |p.values|
    ensures forall s :: 0 <= s < loop.States() ==> fwd.StateAt(env, envs, j, s) == loop.StateAt(env, envs0, j, s)
    ensures fwd.StateAt(env, envs, j, loop.States()) == Int(j)
    ensures forall r :: 0 <= r < |p.values| ==>
      fwd.StateAt(env, envs, j, loop.States() + 1 + r) == Sequence(Pushed(envs, p.values[r], j))
    ensures fwd.Enters(env, envs, j) == loop.Enters(env, envs0, j)
  {
    hide Has, Solves, Within, Counts, Stacks, Continued;
    ExtendedFits(outer, loop, fwd, p);
    StackSizes(outer, fwd.body, p);
    Places(outer, loop, fwd, p, env, envs, j);
    if j > 0 {
      IterationLeaves(kernels, outer, fwd, p, inside, envs0, envs, j - 1);
      BelowAgrees(kernels, fwd.body, p, inside, envs0, envs, j - 1, loop.bodyOutputs);
    }
  }

  lemma BelowAgrees(kernels: Kernels, body: map<NodeId, Node>, p: Pushes, inside: nat, envs0: seq<Env>, envs: seq<Env>,
                    j: nat, vs: seq<ValueId>)
    requires Continued(kernels, body, p, inside, envs0, envs, j) && AllIn(vs, inside)
    ensures forall i :: 0 <= i < |vs| ==> envs[j](vs[i]) == envs0[j](vs[i])
  {
    hide Solves;
    assert forall i :: 0 <= i < |vs| ==> vs[i] in vs;
  }

  /** Counting and pushing, the loop runs as it did. */
  lemma ForwardRuns(kernels: Kernels, outer: map<NodeId, Node>, loop: Loop, fwd: Loop, p: Pushes, inside: nat, env: Env,
                    envs0: seq<Env>, envs: seq<Env>)
    requires Forward(outer, loop, fwd, p) && loop.Run(kernels, env, envs0) && |envs| == |envs0|
    requires OutsideFits(p, env, envs)
    requires forall i :: 0 <= i < |envs| ==> Continued(kernels, fwd.body, p, inside, envs0, envs, i)
    requires AllIn(loop.bodyInputs, inside) && AllIn(loop.bodyOutputs, inside)
    ensures fwd.Run(kernels, env, envs)
  {
    hide Has, Solves, Within, Counts, Stacks, Continued, Extended, OutsideFits;
    ExtendedFits(outer, loop, fwd, p);
    forall j | 0 <= j < |envs| ensures fwd.Iteration(kernels, env, envs, j) {
      IterationContinues(kernels, outer, loop, fwd, p, inside, env, envs0, envs, j);
    }
    StatesContinue(kernels, outer, loop, fwd, p, inside, env, envs0, envs, |envs|);
    ResultsContinue(kernels, outer, loop, fwd, p, inside, env, envs0, envs);
  }

  lemma IterationContinues(kernels: Kernels, outer: map<NodeId, Node>, loop: Loop, fwd: Loop, p: Pushes, inside: nat,
                           env: Env, envs0: seq<Env>, envs: seq<Env>, j: nat)
    requires Forward(outer, loop, fwd, p) && loop.Run(kernels, env, envs0) && |envs| == |envs0|
    requires OutsideFits(p, env, envs)
    requires forall i :: 0 <= i < |envs| ==> Continued(kernels, fwd.body, p, inside, envs0, envs, i)
    requires AllIn(loop.bodyInputs, inside) && AllIn(loop.bodyOutputs, inside) && j < |envs|
    requires fwd.Fits()
    ensures fwd.Iteration(kernels, env, envs, j)
  {
    hide Has, Solves, Within, Counts, Stacks, OutsideFits;
    StatesContinue(kernels, outer, loop, fwd, p, inside, env, envs0, envs, j);
    BodyPlaces(outer, loop, fwd, p);
    BelowAgrees(kernels, fwd.body, p, inside, envs0, envs, j, loop.bodyInputs);
    assert loop.Iteration(kernels, env, envs0, j);
    var states := loop.States();
    forall s | 0 <= s < fwd.States() ensures envs[j](fwd.bodyInputs[2 + s]) == fwd.StateAt(env, envs, j, s) {
      if s < states {
        assert fwd.bodyInputs[2 + s] == loop.bodyInputs[2 + s];
      } else if s > states {
        var r := s - states - 1;
        assert fwd.bodyInputs[2 + states + 1 + r] == p.pushIns[r];
      }
    }
  }

  lemma ResultsContinue(kernels: Kernels, outer: map<NodeId, Node>, loop: Loop, fwd: Loop, p: Pushes, inside: nat,
                        env: Env, envs0: seq<Env>, envs: seq<Env>)
    requires Forward(outer, loop, fwd, p) && loop.Run(kernels, env, envs0) && |envs| == |envs0|
    requires OutsideFits(p, env, envs)
    requires forall i :: 0 <= i < |envs| ==> Continued(kernels, fwd.body, p, inside, envs0, envs, i)
    requires AllIn(loop.bodyInputs, inside) && AllIn(loop.bodyOutputs, inside)
    ensures fwd.Fits() && fwd.Results(env, envs)
  {
    hide Has, Solves, Within, Counts, Stacks, Continued;
    ExtendedFits(outer, loop, fwd, p);
    StatesContinue(kernels, outer, loop, fwd, p, inside, env, envs0, envs, |envs|);
    BodyPlaces(outer, loop, fwd, p);
    var states := loop.States();
    forall s | 0 <= s < fwd.States() && fwd.outputs[s] !in fwd.nulls
      ensures env(fwd.outputs[s]) == fwd.StateAt(env, envs, |envs|, s)
    {
      if s < states {
        assert fwd.outputs[s] == loop.outputs[s];
      } else if s > states {
        var r := s - states - 1;
        assert fwd.outputs[states + 1 + r] == p.stackOuts[r];
      }
    }
  }

  // ---- the backward loop ----

  function BackIns(b: Pops): seq<ValueId> {
    [b.iter, b.cond] + b.gradIns + b.popIns
  }

  /** The tops of the stacks are the values of the step that is run back. */
  ghost predicate Poppable(p: Pushes, b: Pops, fenv: Env, start: Env) {
    && |b.popIns| == |p.values|
    && forall r :: 0 <= r < |p.values| ==>
         start(b.popIns[r]).Sequence? && start(b.popIns[r]).elems != []
         && start(b.popIns[r]).elems[|start(b.popIns[r]).elems| - 1] == fenv(p.values[r])
  }

  /** With any gradients coming in, the backward body runs on the values of a forward step. */
  ghost predicate BackwardBodyRuns(body: map<NodeId, Node>, d: BodyGradient, p: Pushes, b: Pops) {
    forall kernels: Kernels, fenv: Env, start: Env :: Solves(kernels, d.g.node, fenv) && Poppable(p, b, fenv, start) ==>
      BackwardBodyContinues(kernels, body, b, start)
  }

  ghost predicate BackwardBodyContinues(kernels: Kernels, body: map<NodeId, Node>, b: Pops, start: Env) {
    exists benv: Env :: Solves(kernels, body, benv) && AgreeAt(BackIns(b), start, benv)
  }

  /** The gradient of state `i` before backward step `k`. */
  function GradBefore(b: Pops, gy: seq<Data>, backs: seq<Env>, k: nat, i: nat): Data
    requires k <= |backs| && i < |gy| && i < |b.outs|
  {
    if k == 0 then gy[i] else backs[k - 1](b.outs[i])
  }

  /** Backward step `k` has the gradients that the one before left and what is left on the stacks. */
  ghost predicate StepsBack(kernels: Kernels, body: map<NodeId, Node>, p: Pushes, b: Pops, gy: seq<Data>,
                            envs: seq<Env>, backs: seq<Env>, k: nat) {
    && k < |backs| <= |envs| && |b.popIns| == |p.values| && |b.gradIns| == |b.outs| == |gy|
    && Solves(kernels, body, backs[k]) && backs[k](b.iter) == Int(k) && backs[k](b.cond) == Bool(true)
    && (forall i :: 0 <= i < |gy| ==> backs[k](b.gradIns[i]) == GradBefore(b, gy, backs, k, i))
    && (forall r :: 0 <= r < |p.values| ==> backs[k](b.popIns[r]) == Sequence(Pushed(envs, p.values[r], |envs| - k)))
  }

  lemma StepsBackLater(kernels: Kernels, body: map<NodeId, Node>, p: Pushes, b: Pops, gy: seq<Data>, envs: seq<Env>,
                       backs: seq<Env>, e: Env, k: nat)
    requires StepsBack(kernels, body, p, b, gy, envs, backs, k) && |backs| < |envs|
    ensures StepsBack(kernels, body, p, b, gy, envs, backs + [e], k)
  {
    hide Solves;
    forall i | 0 <= i < |gy| ensures GradBefore(b, gy, backs + [e], k, i) == GradBefore(b, gy, backs, k, i) {}
  }

  function BackStart(p: Pushes, b: Pops, gy: seq<Data>, envs: seq<Env>, backs: seq<Env>): seq<Data>
    requires |backs| <= |envs| && |gy| == |b.outs|
  {
    [Int(|backs|), Bool(true)]
    + seq(|gy|, i requires 0 <= i < |gy| => GradBefore(b, gy, backs, |backs|, i))
    + seq(|p.values|, r requires 0 <= r < |p.values| => Sequence(Pushed(envs, p.values[r], |envs| - |backs|)))
  }

  lemma BackStartMeans(p: Pushes, b: Pops, gy: seq<Data>, envs: seq<Env>, backs: seq<Env>, start: Env)
    requires |backs| < |envs| && |b.gradIns| == |b.outs| == |gy| && |b.popIns| == |p.values|
    requires forall i :: 0 <= i < |BackIns(b)| ==> start(BackIns(b)[i]) == BackStart(p, b, gy, envs, backs)[i]
    ensures start(b.iter) == Int(|backs|) && start(b.cond) == Bool(true)
    ensures forall i :: 0 <= i < |gy| ==> start(b.gradIns[i]) == GradBefore(b, gy, backs, |backs|, i)
    ensures forall r :: 0 <= r < |p.values| ==>
      start(b.popIns[r]) == Sequence(Pushed(envs, p.values[r], |envs| - |backs|))
    ensures Poppable(p, b, envs[|envs| - 1 - |backs|], start)
  {
    assert BackIns(b)[0] == b.iter && BackIns(b)[1] == b.cond;
    forall i | 0 <= i < |gy| ensures start(b.gradIns[i]) == GradBefore(b, gy, backs, |backs|, i) {
      assert BackIns(b)[2 + i] == b.gradIns[i];
    }
    forall r | 0 <= r < |p.values| ensures start(b.popIns[r]) == Sequence(Pushed(envs, p.values[r], |envs| - |backs|)) {
      assert BackIns(b)[2 + |gy| + r] == b.popIns[r];
    }
  }

  lemma {:induction false} BackwardBuilt(kernels: Kernels, d: BodyGradient, body: map<NodeId, Node>, p: Pushes, b: Pops,
                                         gy: seq<Data>, envs: seq<Env>, k: nat)
    returns (backs: seq<Env>)
    requires BackwardBodyRuns(body, d, p, b) && Distinct(BackIns(b)) && |b.gradIns| == |b.outs| == |gy|
    requires |b.popIns| == |p.values|
    requires k <= |envs| && forall j :: 0 <= j < |envs| ==> Solves(kernels, d.g.node, envs[j])
    ensures |backs| == k && forall i :: 0 <= i < k ==> StepsBack(kernels, body, p, b, gy, envs, backs, i)
  {
    hide Solves, Set, StepsBack, BackStart, Poppable;
    if k == 0 { return []; }
    var before := BackwardBuilt(kernels, d, body, p, b, gy, envs, k - 1);
    var nothing: Env := (v: ValueId) => Null;
    BackSizes(p, b, gy, envs, before);
    var start := Set(nothing, BackIns(b), BackStart(p, b, gy, envs, before));
    SetMeans(nothing, BackIns(b), BackStart(p, b, gy, envs, before));
    BackStartMeans(p, b, gy, envs, before, start);
    assert BackwardBodyContinues(kernels, body, b, start);
    var e: Env :| Solves(kernels, body, e) && AgreeAt(BackIns(b), start, e);
    backs := before + [e];
    LastStepsBack(kernels, body, p, b, gy, envs, before, e, start);
    forall i | 0 <= i < k ensures StepsBack(kernels, body, p, b, gy, envs, backs, i) {
      if i < k - 1 { StepsBackLater(kernels, body, p, b, gy, envs, before, e, i); }
    }
  }

  lemma BackSizes(p: Pushes, b: Pops, gy: seq<Data>, envs: seq<Env>, backs: seq<Env>)
    requires |b.gradIns| == |b.outs| == |gy| && |b.popIns| == |p.values| && |backs| <= |envs|
    ensures |BackIns(b)| == |BackStart(p, b, gy, envs, backs)|
  {
  }

  lemma LastStepsBack(kernels: Kernels, body: map<NodeId, Node>, p: Pushes, b: Pops, gy: seq<Data>, envs: seq<Env>,
                      before: seq<Env>, e: Env, start: Env)
    requires |before| < |envs| && |b.gradIns| == |b.outs| == |gy| && |b.popIns| == |p.values|
    requires Solves(kernels, body, e) && AgreeAt(BackIns(b), start, e)
    requires start(b.iter) == Int(|before|) && start(b.cond) == Bool(true)
    requires forall i :: 0 <= i < |gy| ==> start(b.gradIns[i]) == GradBefore(b, gy, before, |before|, i)
    requires forall r :: 0 <= r < |p.values| ==>
      start(b.popIns[r]) == Sequence(Pushed(envs, p.values[r], |envs| - |before|))
    ensures StepsBack(kernels, body, p, b, gy, envs, before + [e], |before|)
  {
    hide Solves;
    assert BackIns(b)[0] == b.iter && BackIns(b)[1] == b.cond;
    var backs, k := before + [e], |before|;
    forall i | 0 <= i < |gy| ensures backs[k](b.gradIns[i]) == GradBefore(b, gy, backs, k, i) {
      assert BackIns(b)[2 + i] == b.gradIns[i];
    }
    forall r | 0 <= r < |p.values| ensures backs[k](b.popIns[r]) == Sequence(Pushed(envs, p.values[r], |envs| - k)) {
      assert BackIns(b)[2 + |gy| + r] == b.popIns[r];
    }
  }

  /** What a backward step leaves on the stacks. */
  lemma StepLeaves(kernels: Kernels, body: map<NodeId, Node>, p: Pushes, b: Pops, retained: map<ValueId, ValueId>,
                   gy: seq<Data>, envs: seq<Env>, backs: seq<Env>, k: nat)
    requires PopsAll(body, p, b, retained) && StepsBack(kernels, body, p, b, gy, envs, backs, k)
    ensures forall r :: 0 <= r < |p.values| ==>
      backs[k](b.popOuts[r]) == Sequence(Pushed(envs, p.values[r], |envs| - (k + 1)))
  {
    hide Solves, Has, Holds;
    forall r | 0 <= r < |p.values|
      ensures backs[k](b.popOuts[r]) == Sequence(Pushed(envs, p.values[r], |envs| - (k + 1)))
    {
      HasMeans(kernels, body, backs[k], Node(SequencePop, [b.popIns[r]], [b.popOuts[r], retained[p.values[r]]]));
      var stack := Pushed(envs, p.values[r], |envs| - k);
      PopStep(kernels, backs[k], b.popIns[r], b.popOuts[r], retained[p.values[r]], stack);
      assert stack[..|stack| - 1] == Pushed(envs, p.values[r], |envs| - (k + 1));
    }
  }

  /** Values outside, as the backward loop starts and ends. */
  ghost predicate BackFits(p: Pushes, b: Pops, env: Env, gy: seq<Data>, envs: seq<Env>, backs: seq<Env>) {
    && |b.gys| == |b.gxs| == |b.outs| == |gy| && |p.stackOuts| == |p.values| && env(p.count) == Int(|envs|)
    && (forall r :: 0 <= r < |p.values| ==> env(p.stackOuts[r]) == Sequence(Pushed(envs, p.values[r], |envs|)))
    && (forall i :: 0 <= i < |gy| ==> env(b.gys[i]) == gy[i] && env(b.gxs[i]) == GradBefore(b, gy, backs, |backs|, i))
  }

  lemma BackStates(kernels: Kernels, bwd: Loop, p: Pushes, b: Pops, states: nat, retained: map<ValueId, ValueId>,
                   env: Env, gy: seq<Data>, envs: seq<Env>, backs: seq<Env>, k: nat)
    requires BackwardLists(bwd, p, b, states) && PopsAll(bwd.body, p, b, retained)
    requires BackFits(p, b, env, gy, envs, backs)
    requires |backs| == |envs| && k <= |backs|
    requires forall i :: 0 <= i < |backs| ==> StepsBack(kernels, bwd.body, p, b, gy, envs, backs, i)
    ensures bwd.Fits() && bwd.States() == states + |p.values| && states == |gy|
    ensures forall i :: 0 <= i < states ==> bwd.StateAt(env, backs, k, i) == GradBefore(b, gy, backs, k, i)
    ensures forall r :: 0 <= r < |p.values| ==>
      bwd.StateAt(env, backs, k, states + r) == Sequence(Pushed(envs, p.values[r], |envs| - k))
    ensures bwd.Enters(env, backs, k) <==> k < |envs|
  {
    hide Solves, PopsAll, StepsBack;
    BackwardFits(bwd, p, b, states);
    BackwardPlaces(bwd, p, b, states, env, backs, k);
    if k > 0 { StepLeaves(kernels, bwd.body, p, b, retained, gy, envs, backs, k - 1); }
  }

  /** The backward loop runs as often as the forward loop. */
  lemma BackwardRuns(kernels: Kernels, bwd: Loop, p: Pushes, b: Pops, states: nat, retained: map<ValueId, ValueId>,
                     env: Env, gy: seq<Data>, envs: seq<Env>, backs: seq<Env>)
    requires BackwardLists(bwd, p, b, states) && PopsAll(bwd.body, p, b, retained)
    requires BackFits(p, b, env, gy, envs, backs)
    requires |backs| == |envs|
    requires forall i :: 0 <= i < |backs| ==> StepsBack(kernels, bwd.body, p, b, gy, envs, backs, i)
    requires forall v :: v in b.ends ==> v in bwd.nulls
    ensures bwd.Run(kernels, env, backs)
  {
    hide Solves, PopsAll, StepsBack, BackFits, BackwardLists;
    BackStates(kernels, bwd, p, b, states, retained, env, gy, envs, backs, |backs|);
    forall k | 0 <= k < |backs| ensures bwd.Iteration(kernels, env, backs, k) {
      BackIteration(kernels, bwd, p, b, states, retained, env, gy, envs, backs, k);
    }
    BackResults(kernels, bwd, p, b, states, retained, env, gy, envs, backs);
  }

  lemma BackIteration(kernels: Kernels, bwd: Loop, p: Pushes, b: Pops, states: nat, retained: map<ValueId, ValueId>,
                      env: Env, gy: seq<Data>, envs: seq<Env>, backs: seq<Env>, k: nat)
    requires BackwardLists(bwd, p, b, states) && PopsAll(bwd.body, p, b, retained)
    requires BackFits(p, b, env, gy, envs, backs)
    requires |backs| == |envs| && k < |backs|
    requires forall i :: 0 <= i < |backs| ==> StepsBack(kernels, bwd.body, p, b, gy, envs, backs, i)
    requires bwd.Fits()
    ensures bwd.Iteration(kernels, env, backs, k)
  {
    hide Solves, PopsAll, BackFits;
    BackStates(kernels, bwd, p, b, states, retained, env, gy, envs, backs, k);
    BackwardBodyPlaces(bwd, p, b, states);
    assert StepsBack(kernels, bwd.body, p, b, gy, envs, backs, k);
    forall s | 0 <= s < bwd.States() ensures backs[k](bwd.bodyInputs[2 + s]) == bwd.StateAt(env, backs, k, s) {
      if s >= states {
        var r := s - states;
        assert bwd.bodyInputs[2 + states + r] == b.popIns[r];
      }
    }
  }

  lemma BackResults(kernels: Kernels, bwd: Loop, p: Pushes, b: Pops, states: nat, retained: map<ValueId, ValueId>,
                    env: Env, gy: seq<Data>, envs: seq<Env>, backs: seq<Env>)
    requires BackwardLists(bwd, p, b, states) && PopsAll(bwd.body, p, b, retained)
    requires BackFits(p, b, env, gy, envs, backs)
    requires |backs| == |envs|
    requires forall i :: 0 <= i < |backs| ==> StepsBack(kernels, bwd.body, p, b, gy, envs, backs, i)
    requires forall v :: v in b.ends ==> v in bwd.nulls
    ensures bwd.Fits() && bwd.Results(env, backs)
  {
    hide Solves, PopsAll, StepsBack;
    BackwardFits(bwd, p, b, states);
    BackStates(kernels, bwd, p, b, states, retained, env, gy, envs, backs, |backs|);
    BackwardBodyPlaces(bwd, p, b, states);
    forall s | states <= s < bwd.States() ensures bwd.outputs[s] in bwd.nulls {
      assert bwd.outputs[s] == b.ends[s - states] && b.ends[s - states] in b.ends;
    }
  }

  // ---- both loops and the graph around them ----

  /** A run of a loop looks only at the inputs and outputs of its node. */
  lemma RunAlike(kernels: Kernels, loop: Loop, env: Env, env': Env, envs: seq<Env>, base: nat)
    requires loop.Run(kernels, env, envs) && AgreeBelow(env, env', base) && AllIn(loop.inputs, base)
    requires AllIn(loop.outputs, base)
    ensures loop.Run(kernels, env', envs)
  {
    hide Solves;
    assert forall i :: 0 <= i < |loop.inputs| ==> loop.inputs[i] in loop.inputs;
    assert forall i :: 0 <= i < |loop.outputs| ==> loop.outputs[i] in loop.outputs;
    forall j | 0 <= j <= |envs| ensures loop.Enters(env', envs, j) == loop.Enters(env, envs, j) {}
    forall j | 0 <= j < |envs| ensures loop.Iteration(kernels, env', envs, j) {
      assert loop.Iteration(kernels, env, envs, j);
      SameStates(loop, env, env', envs, j);
    }
    SameStates(loop, env, env', envs, |envs|);
  }

  lemma SameStates(loop: Loop, env: Env, env': Env, envs: seq<Env>, j: nat)
    requires loop.Fits() && j <= |envs|
    requires forall i :: 0 <= i < |loop.inputs| ==> env(loop.inputs[i]) == env'(loop.inputs[i])
    ensures forall s :: 0 <= s < loop.States() ==> loop.StateAt(env', envs, j, s) == loop.StateAt(env, envs, j, s)
  {
  }

  /** The values outside that only the two loops give. */
  function Ends(p: Pushes): seq<ValueId> {
    [p.count] + p.stackOuts
  }

  function GradEnds(b: Pops, gy: seq<Data>, backs: seq<Env>): seq<Data>
    requires |gy| == |b.outs|
  {
    seq(|gy|, i requires 0 <= i < |gy| => GradBefore(b, gy, backs, |backs|, i))
  }

  ghost predicate NobodyWrites(first: map<NodeId, Node>, node: map<NodeId, Node>, producer: map<ValueId, NodeId>,
                               vs: seq<ValueId>) {
    forall v :: v in vs ==> !NewWriter(first, node, producer, v)
  }

  /** The graph around the loops: no node writes what the loops give, and up to the gradients that
      come in everything is older than the gradients that go out. */
  ghost predicate Around(g: Snapshot, first: map<NodeId, Node>, node: map<NodeId, Node>, producer: map<ValueId, NodeId>,
                         base: nat, bound: nat, p: Pushes, b: Pops, m: nat) {
    && Graphs(g, first, node, producer, map[], base) && base <= m <= bound && NodesBelow(node, bound)
    && Distinct(Ends(p)) && Distinct(b.gxs)
    && NobodyWrites(first, node, producer, Ends(p)) && NobodyWrites(first, node, producer, b.gxs)
    && (forall v :: v in Ends(p) ==> base <= v < m) && (forall v :: v in b.gxs ==> m <= v) && AllIn(b.gys, m)
  }

  /** A run of the surrounding graph in which some values that nobody writes are chosen. */
  lemma RunChosen(kernels: Kernels, g: Snapshot, first: map<NodeId, Node>, node: map<NodeId, Node>,
                  producer: map<ValueId, NodeId>, env0: Env, start: Env, base: nat, bound: nat)
    returns (env: Env)
    requires Graphs(g, first, node, producer, map[], base) && base <= bound && NodesBelow(node, bound)
    requires Solves(kernels, g.node, env0) && Solves(kernels, first, env0) && AgreeBelow(env0, start, base)
    ensures Solves(kernels, node, env) && AgreeBelow(env0, env, base)
    ensures forall v: ValueId :: !NewWriter(first, node, producer, v) ==> env(v) == start(v)
    ensures env == Computed(kernels, first, node, producer, Holding(map[], start), base, bound)
  {
    hide Solves, AllSound, Computed, NewWriter, Newer, Written, Within;
    SolvesAlike(kernels, g.node, env0, start, base);
    SolvesAlike(kernels, first, env0, start, base);
    env := RunExtends(kernels, g, first, node, producer, map[], start, base, bound);
    ConsistentSolves(kernels, node, g.node, map[], env);
    forall v: ValueId | !NewWriter(first, node, producer, v) ensures env(v) == start(v) {
      ExtendedKeeps(kernels, first, node, producer, Holding(map[], start), base, bound, v);
      var u := HeldBy(map[], v);
    }
  }

  lemma HoldingNothing(a: Env, b: Env, m: nat)
    requires AgreeBelow(a, b, m)
    ensures AgreeBelow(Holding(map[], a), Holding(map[], b), m)
  {
    forall v: ValueId | v < m ensures Holding(map[], a)(v) == Holding(map[], b)(v) {
      var u := HeldBy(map[], v);
    }
  }

  /** All that is needed of the loops themselves. */
  ghost predicate LoopsRun(outer: map<NodeId, Node>, loop: Loop, fwd: Loop, p: Pushes, bwd: Loop, b: Pops,
                           d: BodyGradient, inside: nat) {
    && Forward(outer, loop, fwd, p) && ForwardBodyRuns(loop.body, fwd.body, p, inside) && Distinct(CountIns(p))
    && AllIn(loop.bodyInputs, inside) && AllIn(loop.bodyOutputs, inside)
    && BackwardLists(bwd, p, b, loop.States()) && PopsAll(bwd.body, p, b, d.retained) && Within(d.g.node, fwd.body)
    && BackwardBodyRuns(bwd.body, d, p, b) && Distinct(BackIns(b)) && (forall v :: v in b.ends ==> v in bwd.nulls)
  }

  lemma LoopSizes(outer: map<NodeId, Node>, loop: Loop, fwd: Loop, p: Pushes, bwd: Loop, b: Pops, d: BodyGradient,
                  inside: nat)
    requires LoopsRun(outer, loop, fwd, p, bwd, b, d, inside)
    ensures |p.pushIns| == |p.pushOuts| == |p.stackIns| == |p.stackOuts| == |p.values| == |b.popIns|
    ensures |b.gys| == |b.gxs| == |b.gradIns| == |b.outs|
  {
    hide ForwardBodyRuns, BackwardBodyRuns, PopsAll, Within, Has;
  }

  /** A run of both loops and the graph around them that continues a run of before. */
  ghost predicate JointlyContinues(kernels: Kernels, outer: map<NodeId, Node>, fwd: Loop, bwd: Loop, env0: Env,
                                   envs0: seq<Env>, base: nat, inside: nat) {
    exists env: Env, envs: seq<Env>, backs: seq<Env> ::
      ContinuesBoth(kernels, outer, fwd, bwd, env0, envs0, base, inside, env, envs, backs)
  }

  ghost predicate ContinuesBoth(kernels: Kernels, outer: map<NodeId, Node>, fwd: Loop, bwd: Loop, env0: Env,
                                envs0: seq<Env>, base: nat, inside: nat, env: Env, envs: seq<Env>, backs: seq<Env>) {
    && JointRun(kernels, outer, fwd, bwd, env, envs, backs) && |envs| == |envs0| == |backs|
    && AgreeBelow(env0, env, base)
    && forall j :: 0 <= j < |envs| ==> AgreeBelow(envs0[j], envs[j], inside)
  }

  lemma BodyOfForward(kernels: Kernels, d: BodyGradient, body: map<NodeId, Node>, p: Pushes, inside: nat,
                      envs0: seq<Env>, envs: seq<Env>)
    requires Within(d.g.node, body)
    requires forall j :: 0 <= j < |envs| ==> Continued(kernels, body, p, inside, envs0, envs, j)
    ensures forall j :: 0 <= j < |envs| ==> Solves(kernels, d.g.node, envs[j])
    ensures forall j :: 0 <= j < |envs| && j < |envs0| ==> AgreeBelow(envs0[j], envs[j], inside)
  {
    hide Solves, Within;
    forall j | 0 <= j < |envs| ensures Solves(kernels, d.g.node, envs[j]) {
      assert Continued(kernels, body, p, inside, envs0, envs, j);
      SolvesWithin(kernels, d.g.node, body, envs[j]);
    }
    forall j | 0 <= j < |envs| && j < |envs0| ensures AgreeBelow(envs0[j], envs[j], inside) {
      assert Continued(kernels, body, p, inside, envs0, envs, j);
    }
  }

  lemma OutsideIs(kernels: Kernels, outer: map<NodeId, Node>, body: map<NodeId, Node>, p: Pushes, env: Env,
                  envs: seq<Env>)
    requires Counts(outer, body, p) && Stacks(outer, body, p) && Solves(kernels, outer, env)
    requires |Ends(p)| == |CountAndStacks(p, envs)|
    requires forall i :: 0 <= i < |Ends(p)| ==> env(Ends(p)[i]) == CountAndStacks(p, envs)[i]
    ensures OutsideFits(p, env, envs)
  {
    hide Has, Solves;
    HasMeans(kernels, outer, env, Node(Constant(Int(0)), [], [p.zero]));
    Nullary(kernels, env, Constant(Int(0)), p.zero);
    forall r | 0 <= r < |p.values| ensures env(p.stackIns[r]) == Sequence([]) {
      HasMeans(kernels, outer, env, Node(SequenceConstruct, [], [p.stackIns[r]]));
      Nullary(kernels, env, SequenceConstruct, p.stackIns[r]);
    }
    assert Ends(p)[0] == p.count;
    forall r | 0 <= r < |p.values| ensures env(p.stackOuts[r]) == Sequence(Pushed(envs, p.values[r], |envs|)) {
      assert Ends(p)[1 + r] == p.stackOuts[r];
    }
  }

  lemma EndSizes(p: Pushes, envs: seq<Env>)
    requires |p.stackOuts| == |p.values|
    ensures |Ends(p)| == |CountAndStacks(p, envs)|
  {
  }

  /** The first choice, of counter and stacks. */
  lemma EndsChosen(kernels: Kernels, g: Snapshot, first: map<NodeId, Node>, node: map<NodeId, Node>,
                   producer: map<ValueId, NodeId>, base: nat, bound: nat, p: Pushes, b: Pops, m: nat, env0: Env,
                   envs: seq<Env>)
    returns (start: Env)
    requires Around(g, first, node, producer, base, bound, p, b, m) && |p.stackOuts| == |p.values|
    ensures AgreeBelow(env0, start, base) && |Ends(p)| == |CountAndStacks(p, envs)|
    ensures forall i :: 0 <= i < |Ends(p)| ==> start(Ends(p)[i]) == CountAndStacks(p, envs)[i]
  {
    hide Graphs, NodesBelow, NobodyWrites, Set, CountAndStacks, Ends, Distinct;
    EndSizes(p, envs);
    start := Set(env0, Ends(p), CountAndStacks(p, envs));
    SetMeans(env0, Ends(p), CountAndStacks(p, envs));
  }

  /** Every run of the loop as it was, and of the graph around it, is part of a joint run of the
      forward loop, of the backward loop, and of the graph around them with its gradient nodes. */
  lemma JointRunMade(kernels: Kernels, g: Snapshot, first: map<NodeId, Node>, node: map<NodeId, Node>,
                     producer: map<ValueId, NodeId>, base: nat, bound: nat, loop: Loop, fwd: Loop, p: Pushes, bwd: Loop,
                     b: Pops, d: BodyGradient, inside: nat, m: nat, env0: Env, envs0: seq<Env>)
    requires Around(g, first, node, producer, base, bound, p, b, m) && LoopsRun(node, loop, fwd, p, bwd, b, d, inside)
    requires Solves(kernels, g.node, env0) && Solves(kernels, first, env0) && loop.Run(kernels, env0, envs0)
    requires AllIn(loop.inputs, base) && AllIn(loop.outputs, base)
    ensures JointlyContinues(kernels, node, fwd, bwd, env0, envs0, base, inside)
  {
    hide Solves, Graphs, Around, Extended, Continued, StepsBack, OutsideFits, BackFits, NewWriter, Computed, Set, Ends,
      CountAndStacks, GradEnds;
    hide Forward, ForwardBodyRuns, BackwardBodyRuns, PopsAll, BackwardLists, CountIns, BackIns, Within, loop.Run,
      fwd.Run, bwd.Run, Distinct;
    LoopSizes(node, loop, fwd, p, bwd, b, d, inside);
    var n := |envs0|;
    RunSolves(kernels, loop, env0, envs0);
    var envs := ForwardBuilt(kernels, loop.body, fwd.body, p, inside, envs0, n);
    BodyOfForward(kernels, d, fwd.body, p, inside, envs0, envs);
    var start := EndsChosen(kernels, g, first, node, producer, base, bound, p, b, m, env0, envs);
    AroundParts(g, first, node, producer, base, bound, p, b, m);
    var mid := RunChosen(kernels, g, first, node, producer, env0, start, base, bound);
    var gy := Vals(mid, b.gys);
    var backs := BackwardBuilt(kernels, d, bwd.body, p, b, gy, envs, n);
    var env := GradsChosen(kernels, g, first, node, producer, base, bound, p, b, m, env0, start, mid, gy, backs);
    EndsHold(g, first, node, producer, base, bound, p, b, m, start, env, envs);
    ForwardParts(node, loop, fwd, p);
    OutsideIs(kernels, node, fwd.body, p, env, envs);
    RunAlike(kernels, loop, env0, env, envs0, base);
    ForwardRuns(kernels, node, loop, fwd, p, inside, env, envs0, envs);
    BackFitsNow(p, b, env, gy, envs, backs);
    BackwardRuns(kernels, bwd, p, b, loop.States(), d.retained, env, gy, envs, backs);
    assert ContinuesBoth(kernels, node, fwd, bwd, env0, envs0, base, inside, env, envs, backs);
  }

  lemma RunSolves(kernels: Kernels, loop: Loop, env: Env, envs: seq<Env>)
    requires loop.Run(kernels, env, envs)
    ensures forall j :: 0 <= j < |envs| ==> Solves(kernels, loop.body, envs[j])
    ensures loop.Fits()
  {
    forall j | 0 <= j < |envs|
      ensures Solves(kernels, loop.body, envs[j])
    {
      IterationSolves(kernels, loop, env, envs, j);
    }
  }

  lemma ForwardParts(outer: map<NodeId, Node>, loop: Loop, fwd: Loop, p: Pushes)
    requires Forward(outer, loop, fwd, p)
    ensures Counts(outer, fwd.body, p) && Stacks(outer, fwd.body, p) && loop.Fits()
  {
    hide Has, Within;
  }

  lemma AroundParts(g: Snapshot, first: map<NodeId, Node>, node: map<NodeId, Node>, producer: map<ValueId, NodeId>,
                    base: nat, bound: nat, p: Pushes, b: Pops, m: nat)
    requires Around(g, first, node, producer, base, bound, p, b, m)
    ensures Graphs(g, first, node, producer, map[], base) && base <= m <= bound && NodesBelow(node, bound)
  {
  }

  lemma EndsHold(g: Snapshot, first: map<NodeId, Node>, node: map<NodeId, Node>, producer: map<ValueId, NodeId>,
                 base: nat, bound: nat, p: Pushes, b: Pops, m: nat, start: Env, env: Env, envs: seq<Env>)
    requires Around(g, first, node, producer, base, bound, p, b, m)
    requires forall v: ValueId :: !NewWriter(first, node, producer, v) && v !in b.gxs ==> env(v) == start(v)
    requires |Ends(p)| == |CountAndStacks(p, envs)|
    requires forall i :: 0 <= i < |Ends(p)| ==> start(Ends(p)[i]) == CountAndStacks(p, envs)[i]
    ensures forall i :: 0 <= i < |Ends(p)| ==> env(Ends(p)[i]) == CountAndStacks(p, envs)[i]
  {
    hide Graphs, NewWriter, NodesBelow, Ends, CountAndStacks;
    forall i | 0 <= i < |Ends(p)| ensures env(Ends(p)[i]) == CountAndStacks(p, envs)[i] {
      assert Ends(p)[i] in Ends(p);
    }
  }

  /** The second choice, of what the backward loop leaves; it does not change what comes in. */
  lemma GradsChosen(kernels: Kernels, g: Snapshot, first: map<NodeId, Node>, node: map<NodeId, Node>,
                    producer: map<ValueId, NodeId>, base: nat, bound: nat, p: Pushes, b: Pops, m: nat, env0: Env,
                    start: Env, mid: Env, gy: seq<Data>, backs: seq<Env>)
    returns (env: Env)
    requires Around(g, first, node, producer, base, bound, p, b, m) && |b.gys| == |b.gxs| == |b.outs|
    requires gy == Vals(mid, b.gys)
    requires Solves(kernels, g.node, env0) && Solves(kernels, first, env0) && AgreeBelow(env0, start, base)
    requires mid == Computed(kernels, first, node, producer, Holding(map[], start), base, bound)
    ensures Solves(kernels, node, env) && AgreeBelow(env0, env, base)
    ensures forall v: ValueId :: !NewWriter(first, node, producer, v) && v !in b.gxs ==> env(v) == start(v)
    ensures forall i :: 0 <= i < |gy| ==>
      env(b.gys[i]) == gy[i] && env(b.gxs[i]) == GradBefore(b, gy, backs, |backs|, i)
  {
    hide Solves, AllSound, Computed, NewWriter, Written, Within, Set, Holding, Ends, NodesBelow, Newer;
    var last := Set(start, b.gxs, GradEnds(b, gy, backs));
    SetMeans(start, b.gxs, GradEnds(b, gy, backs));
    env := RunChosen(kernels, g, first, node, producer, env0, last, base, bound);
    HoldingNothing(start, last, m);
    ExtendedSame(kernels, first, node, producer, Holding(map[], start), Holding(map[], last), base, bound, m);
    forall i | 0 <= i < |gy| ensures env(b.gys[i]) == gy[i] && env(b.gxs[i]) == GradBefore(b, gy, backs, |backs|, i) {
      assert b.gys[i] in b.gys && b.gxs[i] in b.gxs;
    }
  }

  lemma BackFitsNow(p: Pushes, b: Pops, env: Env, gy: seq<Data>, envs: seq<Env>, backs: seq<Env>)
    requires OutsideFits(p, env, envs) && |b.gys| == |b.gxs| == |b.outs| == |gy|
    requires forall i :: 0 <= i < |gy| ==>
      env(b.gys[i]) == gy[i] && env(b.gxs[i]) == GradBefore(b, gy, backs, |backs|, i)
    ensures BackFits(p, b, env, gy, envs, backs)
  {
  }
}
