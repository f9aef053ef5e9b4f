/** What the loops built by LoopGradFn (compiler/gradient_ops.cc) compute: the forward loop
    counts its iterations and pushes what the backward loop, running them in reverse, pops. */
module LoopGradientMeaning {
  import opened Ir
  import opened Builder
  import opened GraphIr
  import opened Dual
  import opened GradientOps
  import opened ReverseMode
  import opened Gradient
  import opened GradientReach
  import opened Loops

  /** What the forward loop gains: a counter and, for every retained value, a stack. */
  datatype Pushes = Pushes(
    zero: ValueId, count: ValueId,                                    // outside: start and end of the counter
    one: ValueId, countIn: ValueId, countOut: ValueId,                // inside
    values: seq<ValueId>,                                             // the retained values
    pushIns: seq<ValueId>, pushOuts: seq<ValueId>,                    // inside
    stackIns: seq<ValueId>, stackOuts: seq<ValueId>)                  // outside

  ghost predicate Counts(outer: map<NodeId, Node>, body: map<NodeId, Node>, p: Pushes) {
    && Has(outer, Node(Constant(Int(0)), [], [p.zero]))
    && Has(body, Node(Constant(Int(1)), [], [p.one]))
    && Has(body, Node(Add, [p.countIn, p.one], [p.countOut]))
  }

  ghost predicate Stacks(outer: map<NodeId, Node>, body: map<NodeId, Node>, p: Pushes) {
    && |p.pushIns| == |p.pushOuts| == |p.stackIns| == |p.stackOuts| == |p.values|
    && (forall r :: 0 <= r < |p.values| ==> Has(outer, Node(SequenceConstruct, [], [p.stackIns[r]])))
    && (forall r :: 0 <= r < |p.values| ==>
          Has(body, Node(SequenceInsert, [p.pushIns[r], p.values[r]], [p.pushOuts[r]])))
  }

  /** `fwd` is `loop` with the counter and the stacks as further states. */
  ghost predicate Extended(loop: Loop, fwd: Loop, p: Pushes) {
    && loop.Fits() && |loop.outputs| == loop.States()
    && fwd.inputs == loop.inputs + [p.zero] + p.stackIns
    && fwd.outputs == loop.outputs + [p.count] + p.stackOuts
    && fwd.bodyInputs == loop.bodyInputs + [p.countIn] + p.pushIns
    && fwd.bodyOutputs == loop.bodyOutputs + [p.countOut] + p.pushOuts
    && fwd.nulls == loop.nulls && p.count !in loop.nulls && (forall s :: s in p.stackOuts ==> s !in loop.nulls)
    && Within(loop.body, fwd.body)
  }

  ghost predicate Forward(outer: map<NodeId, Node>, loop: Loop, fwd: Loop, p: Pushes) {
    Extended(loop, fwd, p) && Counts(outer, fwd.body, p) && Stacks(outer, fwd.body, p)
  }

  lemma ExtendedFits(outer: map<NodeId, Node>, loop: Loop, fwd: Loop, p: Pushes)
    requires Forward(outer, loop, fwd, p)
    ensures fwd.Fits() && fwd.States() == loop.States() + 1 + |p.values| && |fwd.outputs| == fwd.States()
  {
  }

  function CounterAt(p: Pushes, env: Env, envs: seq<Env>, j: nat): Data
    requires j <= |envs|
  {
    if j == 0 then env(p.zero) else envs[j - 1](p.countOut)
  }

  function StackAt(p: Pushes, env: Env, envs: seq<Env>, j: nat, r: nat): Data
    requires j <= |envs| && r < |p.stackIns| && r < |p.pushOuts|
  {
    if j == 0 then env(p.stackIns[r]) else envs[j - 1](p.pushOuts[r])
  }

  /** Old states, counter and stacks keep to their places in all four lists. */
  lemma Places(outer: map<NodeId, Node>, loop: Loop, fwd: Loop, p: Pushes, env: Env, envs: seq<Env>, j: nat)
    requires Forward(outer, loop, fwd, p) && fwd.Fits() && j <= |envs|
    requires fwd.States() == loop.States() + 1 + |p.values|
    ensures forall s :: 0 <= s < loop.States() ==> fwd.StateAt(env, envs, j, s) == loop.StateAt(env, envs, j, s)
    ensures fwd.StateAt(env, envs, j, loop.States()) == CounterAt(p, env, envs, j)
    ensures forall r :: 0 <= r < |p.values| ==>
      fwd.StateAt(env, envs, j, loop.States() + 1 + r) == StackAt(p, env, envs, j, r)
    ensures fwd.Enters(env, envs, j) == loop.Enters(env, envs, j)
  {
    hide Has, Solves, Within, Counts;
  }

  lemma BodyPlaces(outer: map<NodeId, Node>, loop: Loop, fwd: Loop, p: Pushes)
    requires Forward(outer, loop, fwd, p)
    ensures forall s :: 0 <= s < |loop.bodyInputs| ==> fwd.bodyInputs[s] == loop.bodyInputs[s]
    ensures fwd.bodyInputs[2 + loop.States()] == p.countIn
    ensures forall r :: 0 <= r < |p.values| ==> fwd.bodyInputs[2 + loop.States() + 1 + r] == p.pushIns[r]
    ensures forall s :: 0 <= s < loop.States() ==> fwd.outputs[s] == loop.outputs[s]
    ensures fwd.outputs[loop.States()] == p.count
    ensures forall r :: 0 <= r < |p.values| ==> fwd.outputs[loop.States() + 1 + r] == p.stackOuts[r]
  {
  }

  /** The values of `v` in the first `j` iterations. */
  function Pushed(envs: seq<Env>, v: ValueId, j: nat): (r: seq<Data>)
    requires j <= |envs|
    ensures |r| == j && forall i :: 0 <= i < j ==> r[i] == envs[i](v)
  {
    seq(j, i requires 0 <= i < j => envs[i](v))
  }

  /** The added states change nothing for the old ones. */
  lemma ForwardIsLoop(kernels: Kernels, outer: map<NodeId, Node>, loop: Loop, fwd: Loop, p: Pushes, env: Env,
                      envs: seq<Env>)
    requires Forward(outer, loop, fwd, p) && fwd.Run(kernels, env, envs)
    ensures loop.Run(kernels, env, envs)
  {
    hide Has, Solves;
    ExtendedFits(outer, loop, fwd, p);
    BodyPlaces(outer, loop, fwd, p);
    forall j | 0 <= j < |envs| ensures loop.Iteration(kernels, env, envs, j) {
      Places(outer, loop, fwd, p, env, envs, j);
      assert fwd.Iteration(kernels, env, envs, j);
      SolvesWithin(kernels, loop.body, fwd.body, envs[j]);
      forall s | 0 <= s < loop.States() ensures envs[j](loop.bodyInputs[2 + s]) == loop.StateAt(env, envs, j, s) {
        assert fwd.bodyInputs[2 + s] == loop.bodyInputs[2 + s];
      }
    }
    Places(outer, loop, fwd, p, env, envs, |envs|);
  }

  /** Before iteration `j` the counter is `j`, and every stack has the values of the iterations so far. */
  ghost predicate Counted(p: Pushes, env: Env, envs: seq<Env>, j: nat) {
    && j <= |envs| && |p.pushOuts| == |p.stackIns| == |p.values|
    && CounterAt(p, env, envs, j) == Int(j)
    && forall r :: 0 <= r < |p.values| ==> StackAt(p, env, envs, j, r) == Sequence(Pushed(envs, p.values[r], j))
  }

  lemma CountedFirst(kernels: Kernels, outer: map<NodeId, Node>, fwd: Loop, p: Pushes, env: Env, envs: seq<Env>)
    requires Counts(outer, fwd.body, p) && Stacks(outer, fwd.body, p) && Solves(kernels, outer, env)
    ensures Counted(p, env, envs, 0)
  {
    hide Has, Solves;
    HasMeans(kernels, outer, env, Node(Constant(Int(0)), [], [p.zero]));
    Nullary(kernels, env, Constant(Int(0)), p.zero);
    forall r | 0 <= r < |p.values| ensures env(p.stackIns[r]) == Sequence([]) {
      HasMeans(kernels, outer, env, Node(SequenceConstruct, [], [p.stackIns[r]]));
      Nullary(kernels, env, SequenceConstruct, p.stackIns[r]);
    }
  }

  /** An iteration of the forward loop reads its counter and its stacks. */
  ghost predicate Linked(kernels: Kernels, fwd: Loop, p: Pushes, env: Env, envs: seq<Env>, j: nat) {
    && j < |envs| && |p.pushIns| == |p.pushOuts| == |p.stackIns| == |p.values|
    && Solves(kernels, fwd.body, envs[j])
    && envs[j](p.countIn) == CounterAt(p, env, envs, j)
    && forall r :: 0 <= r < |p.values| ==> envs[j](p.pushIns[r]) == StackAt(p, env, envs, j, r)
  }

  lemma IterationLinks(kernels: Kernels, outer: map<NodeId, Node>, loop: Loop, fwd: Loop, p: Pushes,
                       env: Env, envs: seq<Env>, j: nat)
    requires Forward(outer, loop, fwd, p) && fwd.Run(kernels, env, envs) && j < |envs|
    ensures Linked(kernels, fwd, p, env, envs, j)
  {
    hide Has, Solves, Within, Counts;
    ExtendedFits(outer, loop, fwd, p);
    Places(outer, loop, fwd, p, env, envs, j);
    BodyPlaces(outer, loop, fwd, p);
    assert fwd.Iteration(kernels, env, envs, j);
    var s := loop.States();
    assert envs[j](fwd.bodyInputs[2 + s]) == fwd.StateAt(env, envs, j, s);
    forall r | 0 <= r < |p.values| ensures envs[j](p.pushIns[r]) == StackAt(p, env, envs, j, r) {
      assert envs[j](fwd.bodyInputs[2 + (s + 1 + r)]) == fwd.StateAt(env, envs, j, s + 1 + r);
    }
  }

  lemma CountedStep(kernels: Kernels, outer: map<NodeId, Node>, fwd: Loop, p: Pushes, env: Env, envs: seq<Env>, j: nat)
    requires Counts(outer, fwd.body, p) && Stacks(outer, fwd.body, p)
    requires Counted(p, env, envs, j) && Linked(kernels, fwd, p, env, envs, j)
    ensures Counted(p, env, envs, j + 1)
  {
    hide Has, Solves, Counts, Stacks;
    CountStep(kernels, outer, fwd, p, envs[j], j);
    forall r | 0 <= r < |p.values| ensures envs[j](p.pushOuts[r]) == Sequence(Pushed(envs, p.values[r], j + 1)) {
      PushStep(kernels, outer, fwd, p, envs[j], r, Pushed(envs, p.values[r], j));
      assert Pushed(envs, p.values[r], j + 1) == Pushed(envs, p.values[r], j) + [envs[j](p.values[r])];
    }
  }

  lemma {:induction false} CountedAt(kernels: Kernels, outer: map<NodeId, Node>, loop: Loop, fwd: Loop, p: Pushes,
                                     env: Env, envs: seq<Env>, j: nat)
    requires Forward(outer, loop, fwd, p) && Solves(kernels, outer, env) && fwd.Run(kernels, env, envs) && j <= |envs|
    ensures Counted(p, env, envs, j)
  {
    hide Extended, Counts, Stacks, Solves, Linked, Counted;
    if j == 0 {
      CountedFirst(kernels, outer, fwd, p, env, envs);
    } else {
      CountedAt(kernels, outer, loop, fwd, p, env, envs, j - 1);
      IterationLinks(kernels, outer, loop, fwd, p, env, envs, j - 1);
      CountedStep(kernels, outer, fwd, p, env, envs, j - 1);
    }
  }

  lemma CountStep(kernels: Kernels, outer: map<NodeId, Node>, fwd: Loop, p: Pushes, benv: Env, j: nat)
    requires Counts(outer, fwd.body, p) && Solves(kernels, fwd.body, benv) && benv(p.countIn) == Int(j)
    ensures benv(p.countOut) == Int(j + 1)
  {
    hide Has, Solves;
    HasMeans(kernels, fwd.body, benv, Node(Constant(Int(1)), [], [p.one]));
    Nullary(kernels, benv, Constant(Int(1)), p.one);
    HasMeans(kernels, fwd.body, benv, Node(Add, [p.countIn, p.one], [p.countOut]));
    Binary(kernels, benv, Add, p.countIn, p.one, p.countOut);
  }

  lemma PushStep(kernels: Kernels, outer: map<NodeId, Node>, fwd: Loop, p: Pushes, benv: Env, r: nat, stack: seq<Data>)
    requires Stacks(outer, fwd.body, p) && Solves(kernels, fwd.body, benv) && r < |p.values|
    requires benv(p.pushIns[r]) == Sequence(stack)
    ensures benv(p.pushOuts[r]) == Sequence(stack + [benv(p.values[r])])
  {
    hide Has, Solves;
    HasMeans(kernels, fwd.body, benv, Node(SequenceInsert, [p.pushIns[r], p.values[r]], [p.pushOuts[r]]));
    Binary(kernels, benv, SequenceInsert, p.pushIns[r], p.values[r], p.pushOuts[r]);
  }

  /** The forward loop ends with the number of its iterations and with full stacks. */
  lemma ForwardEnds(kernels: Kernels, outer: map<NodeId, Node>, loop: Loop, fwd: Loop, p: Pushes, env: Env,
                    envs: seq<Env>)
    requires Forward(outer, loop, fwd, p) && Solves(kernels, outer, env) && fwd.Run(kernels, env, envs)
    ensures env(p.count) == Int(|envs|)
    ensures forall r :: 0 <= r < |p.values| ==> env(p.stackOuts[r]) == Sequence(Pushed(envs, p.values[r], |envs|))
  {
    hide Has, Solves, Within, Counts;
    ExtendedFits(outer, loop, fwd, p);
    CountedAt(kernels, outer, loop, fwd, p, env, envs, |envs|);
    Places(outer, loop, fwd, p, env, envs, |envs|);
    BodyPlaces(outer, loop, fwd, p);
    assert env(fwd.outputs[loop.States()]) == fwd.StateAt(env, envs, |envs|, loop.States());
    forall r | 0 <= r < |p.values| ensures env(p.stackOuts[r]) == Sequence(Pushed(envs, p.values[r], |envs|)) {
      assert fwd.outputs[loop.States() + 1 + r] == p.stackOuts[r];
      assert p.stackOuts[r] in p.stackOuts;
    }
  }

  // ---- the backward loop ----

  datatype Pops = Pops(
    nothing: ValueId,                                                 // the null condition
    gys: seq<ValueId>, gxs: seq<ValueId>, ends: seq<ValueId>,         // outside
    iter: ValueId, cond: ValueId, condOut: ValueId,                   // inside
    gradIns: seq<ValueId>, outs: seq<ValueId>,                        // inside
    popIns: seq<ValueId>, popOuts: seq<ValueId>)                      // inside

  ghost predicate Sizes(p: Pushes, b: Pops, states: nat) {
    && |b.gys| == |b.gxs| == |b.gradIns| == |b.outs| == states
    && |b.popIns| == |b.popOuts| == |b.ends| == |p.stackOuts| == |p.values|
  }

  ghost predicate BackwardLists(bwd: Loop, p: Pushes, b: Pops, states: nat) {
    && Sizes(p, b, states)
    && bwd.inputs == [p.count, b.nothing] + b.gys + p.stackOuts
    && bwd.outputs == b.gxs + b.ends
    && bwd.bodyInputs == [b.iter, b.cond] + b.gradIns + b.popIns
    && bwd.bodyOutputs == [b.condOut] + b.outs + b.popOuts
    && b.nothing in bwd.nulls && p.count !in bwd.nulls && (forall v :: v in b.gxs ==> v !in bwd.nulls)
  }

  lemma BackwardFits(bwd: Loop, p: Pushes, b: Pops, states: nat)
    requires BackwardLists(bwd, p, b, states)
    ensures bwd.Fits() && bwd.States() == states + |p.values| && |bwd.outputs| == bwd.States()
  {
  }

  function GradAt(b: Pops, env: Env, backs: seq<Env>, k: nat, i: nat): Data
    requires k <= |backs| && i < |b.gys| && i < |b.outs|
  {
    if k == 0 then env(b.gys[i]) else backs[k - 1](b.outs[i])
  }

  function PopAt(p: Pushes, b: Pops, env: Env, backs: seq<Env>, k: nat, r: nat): Data
    requires k <= |backs| && r < |p.stackOuts| && r < |b.popOuts|
  {
    if k == 0 then env(p.stackOuts[r]) else backs[k - 1](b.popOuts[r])
  }

  lemma BackwardPlaces(bwd: Loop, p: Pushes, b: Pops, states: nat, env: Env, backs: seq<Env>, k: nat)
    requires BackwardLists(bwd, p, b, states) && bwd.Fits() && bwd.States() == states + |p.values| && k <= |backs|
    ensures forall i :: 0 <= i < states ==> bwd.StateAt(env, backs, k, i) == GradAt(b, env, backs, k, i)
    ensures forall r :: 0 <= r < |p.values| ==> bwd.StateAt(env, backs, k, states + r) == PopAt(p, b, env, backs, k, r)
    ensures bwd.Enters(env, backs, k) <==> env(p.count).Int? && k < env(p.count).i
  {
  }

  lemma BackwardBodyPlaces(bwd: Loop, p: Pushes, b: Pops, states: nat)
    requires BackwardLists(bwd, p, b, states)
    ensures forall i :: 0 <= i < states ==> bwd.bodyInputs[2 + i] == b.gradIns[i]
    ensures forall r :: 0 <= r < |p.values| ==> bwd.bodyInputs[2 + states + r] == b.popIns[r]
    ensures forall i :: 0 <= i < states ==> bwd.outputs[i] == b.gxs[i]
  {
  }

  /** The backward loop runs as often as the forward loop did. */
  lemma SameIterations(kernels: Kernels, bwd: Loop, p: Pushes, b: Pops, states: nat, env: Env, backs: seq<Env>, n: nat)
    requires BackwardLists(bwd, p, b, states) && bwd.Run(kernels, env, backs) && env(p.count) == Int(n)
    ensures |backs| == n
  {
    hide Solves;
    BackwardPlaces(bwd, p, b, states, env, backs, |backs|);
    if |backs| > 0 {
      assert bwd.Iteration(kernels, env, backs, |backs| - 1);
      BackwardPlaces(bwd, p, b, states, env, backs, |backs| - 1);
    }
  }

  ghost predicate BackwardLinked(kernels: Kernels, bwd: Loop, p: Pushes, b: Pops, states: nat,
                                 env: Env, backs: seq<Env>, k: nat) {
    && k < |backs| && Sizes(p, b, states) && Solves(kernels, bwd.body, backs[k])
    && (forall i :: 0 <= i < states ==> backs[k](b.gradIns[i]) == GradAt(b, env, backs, k, i))
    && (forall r :: 0 <= r < |p.values| ==> backs[k](b.popIns[r]) == PopAt(p, b, env, backs, k, r))
  }

  lemma BackwardIterationLinks(kernels: Kernels, bwd: Loop, p: Pushes, b: Pops, states: nat,
                               env: Env, backs: seq<Env>, k: nat)
    requires BackwardLists(bwd, p, b, states) && bwd.Run(kernels, env, backs) && k < |backs|
    ensures BackwardLinked(kernels, bwd, p, b, states, env, backs, k)
  {
    hide Solves;
    BackwardFits(bwd, p, b, states);
    BackwardPlaces(bwd, p, b, states, env, backs, k);
    BackwardBodyPlaces(bwd, p, b, states);
    assert bwd.Iteration(kernels, env, backs, k);
    forall i | 0 <= i < states ensures backs[k](b.gradIns[i]) == GradAt(b, env, backs, k, i) {
      assert backs[k](bwd.bodyInputs[2 + i]) == bwd.StateAt(env, backs, k, i);
    }
    forall r | 0 <= r < |p.values| ensures backs[k](b.popIns[r]) == PopAt(p, b, env, backs, k, r) {
      assert backs[k](bwd.bodyInputs[2 + (states + r)]) == bwd.StateAt(env, backs, k, states + r);
    }
  }

  /** The backward body pops every retained value into its placeholder. */
  ghost predicate PopsAll(body: map<NodeId, Node>, p: Pushes, b: Pops, retained: map<ValueId, ValueId>) {
    && |b.popIns| == |b.popOuts| == |p.values|
    && (forall v :: v in retained ==> v in p.values)
    && (forall r :: 0 <= r < |p.values| ==> p.values[r] in retained)
    && (forall r :: 0 <= r < |p.values| ==>
          Has(body, Node(SequencePop, [b.popIns[r]], [b.popOuts[r], retained[p.values[r]]])))
  }

  /** Before backward step `k` the stacks have what the first `n - k` forward steps pushed. */
  ghost predicate Remaining(p: Pushes, b: Pops, env: Env, backs: seq<Env>, envs: seq<Env>, k: nat) {
    && k <= |backs| == |envs| && |p.stackOuts| == |b.popOuts| == |p.values|
    && forall r :: 0 <= r < |p.values| ==>
         PopAt(p, b, env, backs, k, r) == Sequence(Pushed(envs, p.values[r], |envs| - k))
  }

  /** Backward step `k` has the retained values of forward step `n - 1 - k`. */
  ghost predicate Restored(retained: map<ValueId, ValueId>, backs: seq<Env>, envs: seq<Env>, k: nat) {
    && k < |backs| == |envs|
    && forall v :: v in retained ==> backs[k](retained[v]) == envs[|envs| - 1 - k](v)
  }

  lemma PopStep(kernels: Kernels, benv: Env, i: ValueId, o: ValueId, r: ValueId, stack: seq<Data>)
    requires Holds(kernels, Node(SequencePop, [i], [o, r]), benv) && benv(i) == Sequence(stack) && stack != []
    ensures benv(o) == Sequence(stack[..|stack| - 1]) && benv(r) == stack[|stack| - 1]
  {
    assert Vals(benv, [i]) == [benv(i)] && Vals(benv, [o, r]) == [benv(o), benv(r)];
  }

  lemma PopsRestore(kernels: Kernels, bwd: Loop, p: Pushes, b: Pops, states: nat, retained: map<ValueId, ValueId>,
                    env: Env, backs: seq<Env>, envs: seq<Env>, k: nat)
    requires PopsAll(bwd.body, p, b, retained) && BackwardLinked(kernels, bwd, p, b, states, env, backs, k)
    requires Remaining(p, b, env, backs, envs, k)
    ensures Remaining(p, b, env, backs, envs, k + 1) && Restored(retained, backs, envs, k)
  {
    hide Has, Solves, Holds, Sizes, Apply, GradAt, Pushed;
    var left := |envs| - k;
    forall r | 0 <= r < |p.values|
      ensures backs[k](b.popOuts[r]) == Sequence(Pushed(envs, p.values[r], left - 1))
      ensures backs[k](retained[p.values[r]]) == envs[left - 1](p.values[r])
    {
      HasMeans(kernels, bwd.body, backs[k], Node(SequencePop, [b.popIns[r]], [b.popOuts[r], retained[p.values[r]]]));
      PopStep(kernels, backs[k], b.popIns[r], b.popOuts[r], retained[p.values[r]], Pushed(envs, p.values[r], left));
      TopOff(envs, p.values[r], left);
    }
  }

  lemma TopOff(envs: seq<Env>, v: ValueId, j: nat)
    requires 0 < j <= |envs|
    ensures Pushed(envs, v, j)[..j - 1] == Pushed(envs, v, j - 1) && Pushed(envs, v, j)[j - 1] == envs[j - 1](v)
  {
  }

  lemma {:induction false} RemainingAt(kernels: Kernels, bwd: Loop, p: Pushes, b: Pops, states: nat,
                                       retained: map<ValueId, ValueId>, env: Env, backs: seq<Env>, envs: seq<Env>,
                                       k: nat)
    requires BackwardLists(bwd, p, b, states) && PopsAll(bwd.body, p, b, retained) && bwd.Run(kernels, env, backs)
    requires |backs| == |envs|
    requires forall r :: 0 <= r < |p.values| ==> env(p.stackOuts[r]) == Sequence(Pushed(envs, p.values[r], |envs|))
    requires k <= |backs|
    ensures Remaining(p, b, env, backs, envs, k)
  {
    hide Solves, PopsAll, BackwardLinked;
    if k > 0 {
      RemainingAt(kernels, bwd, p, b, states, retained, env, backs, envs, k - 1);
      BackwardIterationLinks(kernels, bwd, p, b, states, env, backs, k - 1);
      PopsRestore(kernels, bwd, p, b, states, retained, env, backs, envs, k - 1);
    }
  }

  /** Push and pop pair up: as many steps, every step with the values of its mirror image, and
      nothing left at the end. */
  lemma StacksPairUp(kernels: Kernels, outer: map<NodeId, Node>, loop: Loop, fwd: Loop, p: Pushes,
                     bwd: Loop, b: Pops, retained: map<ValueId, ValueId>, env: Env, envs: seq<Env>, backs: seq<Env>)
    requires Forward(outer, loop, fwd, p) && Solves(kernels, outer, env) && fwd.Run(kernels, env, envs)
    requires BackwardLists(bwd, p, b, loop.States()) && PopsAll(bwd.body, p, b, retained)
    requires bwd.Run(kernels, env, backs)
    ensures |backs| == |envs|
    ensures forall k :: 0 <= k < |backs| ==> Restored(retained, backs, envs, k)
    ensures forall r :: 0 <= r < |p.values| ==> PopAt(p, b, env, backs, |backs|, r) == Sequence([])
  {
    hide Solves, PopsAll, Counts, Stacks, Restored, Within;
    ForwardEnds(kernels, outer, loop, fwd, p, env, envs);
    SameIterations(kernels, bwd, p, b, loop.States(), env, backs, |envs|);
    forall k | 0 <= k < |backs| ensures Restored(retained, backs, envs, k) {
      RemainingAt(kernels, bwd, p, b, loop.States(), retained, env, backs, envs, k);
      BackwardIterationLinks(kernels, bwd, p, b, loop.States(), env, backs, k);
      PopsRestore(kernels, bwd, p, b, loop.States(), retained, env, backs, envs, k);
    }
    RemainingAt(kernels, bwd, p, b, loop.States(), retained, env, backs, envs, |backs|);
  }

  // ---- the backward loop is the adjoint of the forward loop ----

  ghost predicate AllFrom(node: map<NodeId, Node>, border: ValueId) {
    forall n, v :: n in node && (v in node[n].inputs || v in node[n].outputs) ==> border <= v
  }

  /** The body that GenerateGradientNodes was given and what it produced. */
  datatype BodyGradient = BodyGradient(
    g: Snapshot, node: map<NodeId, Node>, border: ValueId, retained: map<ValueId, ValueId>,
    first: Grads, grad: Grads, xs: seq<ValueId>, ys: seq<ValueId>)
  {
    /** The values of the two graphs are apart. */
    ghost predicate TwoGraphs() {
      && NodesBelow(g.node, border) && AllFrom(node, border)
      && (forall v :: v in retained ==> v < border <= retained[v])
      && (forall v :: v in first ==> border <= first[v]) && (forall v :: v in grad ==> border <= grad[v])
      && (forall v :: v in xs || v in ys ==> v < border)
      && (forall v :: v in g.producer ==> v < border)
    }

    /** The nodes around the gradient nodes: gradients come in and go out as loop states. */
    ghost predicate Wired(body: map<NodeId, Node>, b: Pops, states: nat) {
      && Within(node, body) && |ys| == |b.gradIns| == |b.outs| == states && states <= |xs|
      && (forall i :: 0 <= i < states ==> ys[i] in first && Has(body, Node(Identity, [b.gradIns[i]], [first[ys[i]]])))
      && (forall i :: 0 <= i < states ==> GoesOut(body, b, i))
    }

    ghost predicate GoesOut(body: map<NodeId, Node>, b: Pops, i: nat)
      requires i < |xs| && i < |b.outs|
    {
      if xs[i] in grad then Has(body, Node(Identity, [grad[xs[i]]], [b.outs[i]]))
      else Has(body, Node(Constant(Null), [], [b.outs[i]]))
    }

    ghost predicate Adjoint() {
      IsAdjoint(node, g, retained, first, grad, xs, ys)
    }
  }

  /** Forward values from one run, the others from another. */
  function Joined(border: ValueId, fenv: Env, benv: Env): Env {
    (v: ValueId) => if v < border then fenv(v) else benv(v)
  }

  function JoinedTangents(border: ValueId, tan: ValueId -> Number, benv: Env): ValueId -> Number {
    (v: ValueId) => if v < border then tan(v) else Number(RealOf(benv(v)), 0.0)
  }

  lemma JoinedConsistent(kernels: Kernels, d: BodyGradient, fenv: Env, benv: Env)
    requires d.TwoGraphs() && Solves(kernels, d.g.node, fenv) && Solves(kernels, d.node, benv)
    requires forall v :: v in d.retained ==> benv(d.retained[v]) == fenv(v)
    ensures Consistent(kernels, d.node, d.g.node, d.retained, Joined(d.border, fenv, benv))
  {
    hide Holds;
    var env := Joined(d.border, fenv, benv);
    forall n | n in d.g.node ensures Holds(kernels, d.g.node[n], env) {
      assert BelowNode(d.g.node[n], d.border);
      HoldsAlike(kernels, d.g.node[n], fenv, env);
    }
    forall n | n in d.node ensures Holds(kernels, d.node[n], env) {
      HoldsAlike(kernels, d.node[n], benv, env);
    }
  }

  lemma CarriesAlike(env: Env, env': Env, tan: ValueId -> Number, tan': ValueId -> Number, n: Node, v: ValueId)
    requires Carries(env, tan, n, v) && tan'(v) == tan(v)
    requires forall i :: i in n.inputs ==> env'(i) == env(i) && tan'(i) == tan(i)
    ensures Carries(env', tan', n, v)
  {
    hide DualApply;
    if Differentiable(n.op) {
      assert forall i :: 0 <= i < |n.inputs| ==> n.inputs[i] in n.inputs;
      assert Duals(tan', n.inputs) == Duals(tan, n.inputs);
    }
  }

  lemma JoinedIsTangent(d: BodyGradient, fenv: Env, benv: Env, tan: ValueId -> Number)
    requires d.TwoGraphs() && Tangents(d.g, d.xs, fenv, tan)
    ensures Tangents(d.g, d.xs, Joined(d.border, fenv, benv), JoinedTangents(d.border, tan, benv))
  {
    hide Carries;
    var env, tan' := Joined(d.border, fenv, benv), JoinedTangents(d.border, tan, benv);
    forall n, v | n in d.g.node && v in d.g.node[n].outputs && v !in d.xs ensures Carries(env, tan', d.g.node[n], v) {
      assert BelowNode(d.g.node[n], d.border);
      CarriesAlike(fenv, env, tan, tan', d.g.node[n], v);
    }
  }

  /** Σ of a(i) * t(i) over i < states. */
  ghost function Dot(states: nat, a: nat -> real, t: nat -> real): real {
    ReverseMode.Sum(states, (i: nat) => a(i) * t(i))
  }

  lemma DotEqual(states: nat, a: nat -> real, a': nat -> real, t: nat -> real, t': nat -> real)
    requires forall i: nat :: i < states ==> a(i) == a'(i) && t(i) == t'(i)
    ensures Dot(states, a, t) == Dot(states, a', t')
  {
    SumEqual(states, (i: nat) => a(i) * t(i), (i: nat) => a'(i) * t'(i));
  }

  function Along(vs: seq<ValueId>, f: ValueId -> real): nat -> real {
    (i: nat) => if i < |vs| then f(vs[i]) else 0.0
  }

  lemma {:induction false} InnerIsDot(vs: seq<ValueId>, gradient: ValueId -> real, tan: ValueId -> Number)
    ensures Inner(vs, gradient, tan) == Dot(|vs|, Along(vs, gradient), Along(vs, (v: ValueId) => tan(v).du))
  {
    var du := (v: ValueId) => tan(v).du;
    if vs != [] {
      var init := vs[..|vs| - 1];
      InnerIsDot(init, gradient, tan);
      DotEqual(|init|, Along(init, gradient), Along(vs, gradient), Along(init, du), Along(vs, du));
      assert Inner(vs, gradient, tan) == Inner(init, gradient, tan) + gradient(vs[|init|]) * du(vs[|init|]);
    }
  }

  /** A longer list, whose further tangents are zero. */
  lemma {:induction false} DotShorter(more: nat, states: nat, a: nat -> real, t: nat -> real)
    requires states <= more && forall i: nat :: states <= i < more ==> t(i) == 0.0
    ensures Dot(more, a, t) == Dot(states, a, t)
  {
    if states < more {
      DotShorter(more - 1, states, a, t);
      assert a(more - 1) * t(more - 1) == 0.0;
    }
  }

  /** What comes into a backward step, and what comes out. */
  lemma ComesIn(kernels: Kernels, d: BodyGradient, body: map<NodeId, Node>, b: Pops, states: nat, fenv: Env, benv: Env,
                i: nat)
    requires d.TwoGraphs() && d.Wired(body, b, states) && Solves(kernels, body, benv) && i < states
    ensures GradOf(Joined(d.border, fenv, benv), d.first, d.ys[i]) == RealOf(benv(b.gradIns[i]))
    ensures GradOf(Joined(d.border, fenv, benv), d.grad, d.xs[i]) == RealOf(benv(b.outs[i]))
    ensures d.xs[i] !in d.grad ==> benv(b.outs[i]) == Null
  {
    hide Has, Solves, Holds;
    HasMeans(kernels, body, benv, Node(Identity, [b.gradIns[i]], [d.first[d.ys[i]]]));
    Unary(kernels, benv, Identity, b.gradIns[i], d.first[d.ys[i]]);
    assert d.GoesOut(body, b, i);
    if d.xs[i] in d.grad {
      HasMeans(kernels, body, benv, Node(Identity, [d.grad[d.xs[i]]], [b.outs[i]]));
      Unary(kernels, benv, Identity, d.grad[d.xs[i]], b.outs[i]);
    } else {
      HasMeans(kernels, body, benv, Node(Constant(Null), [], [b.outs[i]]));
      Nullary(kernels, benv, Constant(Null), b.outs[i]);
    }
  }

  function In(b: Pops, benv: Env): nat -> real {
    (i: nat) => if i < |b.gradIns| then RealOf(benv(b.gradIns[i])) else 0.0
  }

  function Out(b: Pops, benv: Env): nat -> real {
    (i: nat) => if i < |b.outs| then RealOf(benv(b.outs[i])) else 0.0
  }

  /** One backward step is the adjoint of the forward step whose values it has. */
  lemma BodyStep(kernels: Kernels, d: BodyGradient, body: map<NodeId, Node>, b: Pops, states: nat,
                 fenv: Env, benv: Env, tan: ValueId -> Number)
    requires d.TwoGraphs() && d.Wired(body, b, states) && d.Adjoint()
    requires Solves(kernels, d.g.node, fenv) && Solves(kernels, body, benv)
    requires forall v :: v in d.retained ==> benv(d.retained[v]) == fenv(v)
    requires Tangents(d.g, d.xs, fenv, tan) && forall i :: states <= i < |d.xs| ==> tan(d.xs[i]).du == 0.0
    ensures Dot(states, In(b, benv), Along(d.ys, (v: ValueId) => tan(v).du))
      == Dot(states, Out(b, benv), Along(d.xs, (v: ValueId) => tan(v).du))
  {
    hide Solves, Consistent, Tangents, Has, GradOf, Inner, Dot, IsAdjoint;
    var env, tan' := Joined(d.border, fenv, benv), JoinedTangents(d.border, tan, benv);
    SolvesWithin(kernels, d.node, body, benv);
    JoinedConsistent(kernels, d, fenv, benv);
    JoinedIsTangent(d, fenv, benv, tan);
    AdjointHere(kernels, d, env, tan');
    InnerIsDot(d.ys, Gradients(env, d.first), tan');
    InnerIsDot(d.xs, Gradients(env, d.grad), tan');
    var du, du' := (v: ValueId) => tan(v).du, (v: ValueId) => tan'(v).du;
    forall i: nat | i < |d.ys| ensures Along(d.ys, du')(i) == Along(d.ys, du)(i) { assert d.ys[i] in d.ys; }
    forall i: nat | i < |d.xs| ensures Along(d.xs, du')(i) == Along(d.xs, du)(i) { assert d.xs[i] in d.xs; }
    forall i: nat | i < states
      ensures Along(d.ys, Gradients(env, d.first))(i) == In(b, benv)(i)
      ensures Along(d.xs, Gradients(env, d.grad))(i) == Out(b, benv)(i)
    {
      ComesIn(kernels, d, body, b, states, fenv, benv, i);
    }
    DotShorter(|d.xs|, states, Along(d.xs, Gradients(env, d.grad)), Along(d.xs, du'));
    DotEqual(states, Along(d.ys, Gradients(env, d.first)), In(b, benv), Along(d.ys, du'), Along(d.ys, du));
    DotEqual(states, Along(d.xs, Gradients(env, d.grad)), Out(b, benv), Along(d.xs, du'), Along(d.xs, du));
  }

  lemma AdjointHere(kernels: Kernels, d: BodyGradient, env: Env, tan: ValueId -> Number)
    requires d.Adjoint() && Consistent(kernels, d.node, d.g.node, d.retained, env) && Tangents(d.g, d.xs, env, tan)
    ensures Inner(d.ys, Gradients(env, d.first), tan) == Inner(d.xs, Gradients(env, d.grad), tan)
  {
    hide Consistent, Tangents, Inner, Gradients;
  }

  /** The tangent of state `i` before iteration `j`. */
  function TangentAt(loop: Loop, tan: ValueId -> Number, tans: seq<ValueId -> Number>, j: nat, i: nat): real
    requires loop.Fits() && j <= |tans| && i < loop.States()
  {
    if j == 0 then tan(loop.inputs[2 + i]).du else tans[j - 1](loop.bodyOutputs[1 + i]).du
  }

  function TangentsAt(loop: Loop, tan: ValueId -> Number, tans: seq<ValueId -> Number>, j: nat): nat -> real
    requires loop.Fits() && j <= |tans|
  {
    (i: nat) => if i < loop.States() then TangentAt(loop, tan, tans, j, i) else 0.0
  }

  /** Tangents along a run of the loop when only its states vary. */
  ghost predicate TangentRun(loop: Loop, d: BodyGradient, envs: seq<Env>, tan: ValueId -> Number,
                             tans: seq<ValueId -> Number>) {
    && loop.Fits() && |loop.outputs| == loop.States() && |tans| == |envs| && loop.States() <= |d.xs|
    && (forall j :: 0 <= j < |tans| ==> TangentsOf(loop, d, envs[j], tan, tans, j))
    && (forall i :: 0 <= i < loop.States() ==> tan(loop.outputs[i]).du == TangentAt(loop, tan, tans, |tans|, i))
  }

  ghost predicate TangentsOf(loop: Loop, d: BodyGradient, benv: Env, tan: ValueId -> Number,
                             tans: seq<ValueId -> Number>, j: nat)
    requires loop.Fits() && j < |tans| && loop.States() <= |d.xs|
  {
    && Tangents(d.g, d.xs, benv, tans[j])
    && (forall i :: 0 <= i < loop.States() ==> tans[j](loop.bodyInputs[2 + i]).du == TangentAt(loop, tan, tans, j, i))
    && (forall i :: loop.States() <= i < |d.xs| ==> tans[j](d.xs[i]).du == 0.0)
  }

  /** The body's states are what was differentiated. */
  ghost predicate StatesOf(loop: Loop, d: BodyGradient) {
    && loop.Fits() && loop.States() <= |d.xs| && |d.ys| == loop.States()
    && (forall i :: 0 <= i < loop.States() ==> d.xs[i] == loop.bodyInputs[2 + i] && d.ys[i] == loop.bodyOutputs[1 + i])
  }

  function GradsAt(b: Pops, env: Env, backs: seq<Env>, k: nat): nat -> real
    requires k <= |backs|
  {
    (i: nat) => if i < |b.gys| && i < |b.outs| then RealOf(GradAt(b, env, backs, k, i)) else 0.0
  }

  /** Backward step `k` keeps the inner product of gradients and tangents. */
  lemma LoopStep(kernels: Kernels, loop: Loop, d: BodyGradient, bwd: Loop, p: Pushes, b: Pops, env: Env, envs: seq<Env>,
                 backs: seq<Env>, tan: ValueId -> Number, tans: seq<ValueId -> Number>, k: nat)
    requires StatesOf(loop, d) && d.TwoGraphs() && d.Wired(bwd.body, b, loop.States()) && d.Adjoint()
    requires TangentRun(loop, d, envs, tan, tans) && k < |backs| == |envs|
    requires BackwardLinked(kernels, bwd, p, b, loop.States(), env, backs, k)
    requires Restored(d.retained, backs, envs, k) && Solves(kernels, d.g.node, envs[|envs| - 1 - k])
    ensures Dot(loop.States(), GradsAt(b, env, backs, k), TangentsAt(loop, tan, tans, |envs| - k))
      == Dot(loop.States(), GradsAt(b, env, backs, k + 1), TangentsAt(loop, tan, tans, |envs| - (k + 1)))
  {
    hide Solves, Tangents, Dot, d.TwoGraphs, d.Wired, d.Adjoint;
    var j := |envs| - 1 - k;
    assert TangentsOf(loop, d, envs[j], tan, tans, j);
    BodyStep(kernels, d, bwd.body, b, loop.States(), envs[j], backs[k], tans[j]);
    var du := (v: ValueId) => tans[j](v).du;
    DotEqual(loop.States(), GradsAt(b, env, backs, k), In(b, backs[k]), TangentsAt(loop, tan, tans, j + 1),
             Along(d.ys, du));
    DotEqual(loop.States(), GradsAt(b, env, backs, k + 1), Out(b, backs[k]), TangentsAt(loop, tan, tans, j),
             Along(d.xs, du));
  }

  /** All that LoopGradFn leaves behind: the loop with its counter and stacks, and the backward loop. */
  ghost predicate Differentiated(outer: map<NodeId, Node>, loop: Loop, fwd: Loop, p: Pushes, bwd: Loop, b: Pops,
                                 d: BodyGradient) {
    && Forward(outer, loop, fwd, p)
    && BackwardLists(bwd, p, b, loop.States()) && PopsAll(bwd.body, p, b, d.retained)
    && StatesOf(loop, d) && d.TwoGraphs() && d.Wired(bwd.body, b, loop.States()) && d.Adjoint()
    && Within(d.g.node, fwd.body) && DropsExactly(loop, d)
  }

  /** Some state that the body leaves depends, through operators with gradients, on state `i`. */
  ghost predicate Matters(loop: Loop, i: nat)
    requires loop.Fits() && i < loop.States()
  {
    Influences(loop.body, loop.bodyInputs[2 + i], loop.bodyOutputs[1..1 + loop.States()])
  }

  /** The states for which the body computes no gradient are those that do not matter to it. */
  ghost predicate DropsExactly(loop: Loop, d: BodyGradient) {
    loop.Fits() && loop.States() <= |d.xs| && forall i :: 0 <= i < loop.States() ==>
      (d.xs[i] in d.grad <==> Matters(loop, i))
  }

  /** A joint run of both loops. */
  ghost predicate JointRun(kernels: Kernels, outer: map<NodeId, Node>, fwd: Loop, bwd: Loop,
                           env: Env, envs: seq<Env>, backs: seq<Env>) {
    Solves(kernels, outer, env) && fwd.Run(kernels, env, envs) && bwd.Run(kernels, env, backs)
  }

  /** After `k` backward steps the inner product is still that of the gradients that came in
      with the tangents of the loop's outputs. */
  lemma {:induction false} ProductAt(kernels: Kernels, outer: map<NodeId, Node>, loop: Loop, fwd: Loop, p: Pushes,
                                     bwd: Loop, b: Pops, d: BodyGradient, env: Env, envs: seq<Env>, backs: seq<Env>,
                                     tan: ValueId -> Number, tans: seq<ValueId -> Number>, k: nat)
    requires Differentiated(outer, loop, fwd, p, bwd, b, d) && JointRun(kernels, outer, fwd, bwd, env, envs, backs)
    requires TangentRun(loop, d, envs, tan, tans) && k <= |backs| == |envs|
    ensures Dot(loop.States(), GradsAt(b, env, backs, 0), TangentsAt(loop, tan, tans, |envs|))
      == Dot(loop.States(), GradsAt(b, env, backs, k), TangentsAt(loop, tan, tans, |envs| - k))
  {
    hide BackwardLists, PopsAll, d.TwoGraphs, d.Wired, d.Adjoint, Within, Solves, Counts, Stacks;
    hide Restored, BackwardLinked, Dot, GradsAt, TangentsAt, TangentsOf;
    if k > 0 {
      ProductAt(kernels, outer, loop, fwd, p, bwd, b, d, env, envs, backs, tan, tans, k - 1);
      StacksPairUp(kernels, outer, loop, fwd, p, bwd, b, d.retained, env, envs, backs);
      assert Restored(d.retained, backs, envs, k - 1);
      BackwardIterationLinks(kernels, bwd, p, b, loop.States(), env, backs, k - 1);
      IterationSolves(kernels, fwd, env, envs, |envs| - k);
      SolvesWithin(kernels, d.g.node, fwd.body, envs[|envs| - k]);
      LoopStep(kernels, loop, d, bwd, p, b, env, envs, backs, tan, tans, k - 1);
    }
  }

  lemma IterationSolves(kernels: Kernels, loop: Loop, env: Env, envs: seq<Env>, j: nat)
    requires loop.Run(kernels, env, envs) && j < |envs|
    ensures Solves(kernels, loop.body, envs[j])
  {
    assert loop.Iteration(kernels, env, envs, j);
  }

  /** What the backward loop leaves in the gradients of the states. */
  lemma BackwardEnds(kernels: Kernels, loop: Loop, p: Pushes, bwd: Loop, b: Pops, d: BodyGradient,
                     env: Env, backs: seq<Env>, i: nat)
    requires loop.Fits() && BackwardLists(bwd, p, b, loop.States()) && d.TwoGraphs()
    requires d.Wired(bwd.body, b, loop.States())
    requires bwd.Run(kernels, env, backs) && i < loop.States()
    ensures env(b.gxs[i]) == GradAt(b, env, backs, |backs|, i)
    ensures |backs| > 0 && d.xs[i] !in d.grad ==> env(b.gxs[i]) == Null
  {
    hide Solves, d.TwoGraphs, d.Wired;
    BackwardFits(bwd, p, b, loop.States());
    BackwardPlaces(bwd, p, b, loop.States(), env, backs, |backs|);
    BackwardBodyPlaces(bwd, p, b, loop.States());
    assert bwd.outputs[i] == b.gxs[i] && b.gxs[i] in b.gxs;
    if |backs| > 0 {
      IterationSolves(kernels, bwd, env, backs, |backs| - 1);
      ComesIn(kernels, d, bwd.body, b, loop.States(), env, backs[|backs| - 1], i);
    }
  }

  /** The gradients that the backward loop receives and, at the states whose gradient the body
      computes, those that it passes on; the others are dropped. */
  function Received(b: Pops, env: Env): nat -> real {
    (i: nat) => if i < |b.gys| then RealOf(env(b.gys[i])) else 0.0
  }

  function PassedOn(b: Pops, d: BodyGradient, env: Env): nat -> real {
    (i: nat) => if i < |b.gxs| && i < |d.xs| && d.xs[i] in d.grad then RealOf(env(b.gxs[i])) else 0.0
  }

  function OutputTangents(loop: Loop, tan: ValueId -> Number): nat -> real {
    (i: nat) => if i < |loop.outputs| then tan(loop.outputs[i]).du else 0.0
  }

  function InputTangents(loop: Loop, tan: ValueId -> Number): nat -> real {
    (i: nat) => if 2 + i < |loop.inputs| then tan(loop.inputs[2 + i]).du else 0.0
  }

  /** The gradients that come in for states that do not matter to the body. */
  ghost function Dropped(loop: Loop, b: Pops, env: Env): nat -> real
    requires loop.Fits()
  {
    (i: nat) => if i < loop.States() && i < |b.gys| && !Matters(loop, i) then RealOf(env(b.gys[i])) else 0.0
  }

  /** The summands of `f` that belong to states fed by `v`. */
  function FedBy(loop: Loop, f: nat -> real, v: ValueId): nat -> real
    requires loop.Fits()
  {
    (i: nat) => if i < loop.States() && loop.inputs[2 + i] == v then f(i) else 0.0
  }

  /** What is dropped of the gradient of `v`. */
  ghost function Lost(loop: Loop, b: Pops, env: Env, v: ValueId): real
    requires loop.Fits()
  {
    ReverseMode.Sum(loop.States(), FedBy(loop, Dropped(loop, b, env), v))
  }

  ghost predicate NothingLost(loop: Loop, b: Pops, env: Env)
    requires loop.Fits()
  {
    forall v: ValueId :: Lost(loop, b, env, v) == 0.0
  }

  ghost predicate LoopIsAdjoint(loop: Loop, b: Pops, d: BodyGradient, env: Env, tan: ValueId -> Number)
    requires loop.Fits()
  {
    Dot(loop.States(), Received(b, env), OutputTangents(loop, tan)) == Dot(loop.States(), PassedOn(b, d, env),
        InputTangents(loop, tan))
  }

  lemma PassedOnIsLast(kernels: Kernels, loop: Loop, p: Pushes, bwd: Loop, b: Pops, d: BodyGradient,
                       env: Env, backs: seq<Env>, i: nat)
    requires loop.Fits() && BackwardLists(bwd, p, b, loop.States()) && d.TwoGraphs()
    requires d.Wired(bwd.body, b, loop.States())
    requires bwd.Run(kernels, env, backs) && i < loop.States() && |backs| > 0
    ensures PassedOn(b, d, env)(i) == GradsAt(b, env, backs, |backs|)(i)
  {
    hide Solves, d.TwoGraphs;
    BackwardEnds(kernels, loop, p, bwd, b, d, env, backs, i);
  }

  /** The backward loop is the adjoint of the forward loop when there are iterations. */
  lemma IteratedAdjoint(kernels: Kernels, outer: map<NodeId, Node>, loop: Loop, fwd: Loop, p: Pushes, bwd: Loop,
                        b: Pops, d: BodyGradient, env: Env, envs: seq<Env>, backs: seq<Env>, tan: ValueId -> Number,
                        tans: seq<ValueId -> Number>)
    requires Differentiated(outer, loop, fwd, p, bwd, b, d) && JointRun(kernels, outer, fwd, bwd, env, envs, backs)
    requires TangentRun(loop, d, envs, tan, tans) && |envs| > 0
    ensures LoopIsAdjoint(loop, b, d, env, tan)
  {
    hide PopsAll, d.TwoGraphs, d.Adjoint, Within, Solves, Counts, Stacks, d.Wired, Dot, fwd.Run, bwd.Run, DropsExactly;
    StacksPairUp(kernels, outer, loop, fwd, p, bwd, b, d.retained, env, envs, backs);
    ProductAt(kernels, outer, loop, fwd, p, bwd, b, d, env, envs, backs, tan, tans, |backs|);
    forall i: nat | i < loop.States()
      ensures PassedOn(b, d, env)(i) == GradsAt(b, env, backs, |backs|)(i)
    {
      PassedOnIsLast(kernels, loop, p, bwd, b, d, env, backs, i);
    }
    DotEqual(loop.States(), Received(b, env), GradsAt(b, env, backs, 0), OutputTangents(loop, tan),
             TangentsAt(loop, tan, tans, |envs|));
    DotEqual(loop.States(), PassedOn(b, d, env), GradsAt(b, env, backs, |backs|), InputTangents(loop, tan),
             TangentsAt(loop, tan, tans, 0));
  }

  // ---- without iterations ----

  /** Without iterations what comes in is passed on or dropped. */
  lemma PassedOnOrDropped(kernels: Kernels, outer: map<NodeId, Node>, loop: Loop, fwd: Loop, p: Pushes, bwd: Loop,
                          b: Pops, d: BodyGradient, env: Env, i: nat)
    requires Differentiated(outer, loop, fwd, p, bwd, b, d) && bwd.Run(kernels, env, []) && i < loop.States()
    ensures Received(b, env)(i) == PassedOn(b, d, env)(i) + Dropped(loop, b, env)(i)
  {
    hide PopsAll, d.TwoGraphs, d.Adjoint, Within, Solves, Counts, Stacks, d.Wired, Matters;
    BackwardEnds(kernels, loop, p, bwd, b, d, env, [], i);
  }

  lemma DotPlus(states: nat, a: nat -> real, b: nat -> real, c: nat -> real, t: nat -> real)
    requires forall i: nat :: i < states ==> c(i) == a(i) + b(i)
    ensures Dot(states, c, t) == Dot(states, a, t) + Dot(states, b, t)
  {
    forall i: nat | i < states ensures c(i) * t(i) == a(i) * t(i) + b(i) * t(i) { Spread(a(i), b(i), t(i)); }
    SumPlus(states, (i: nat) => a(i) * t(i), (i: nat) => b(i) * t(i), (i: nat) => c(i) * t(i));
  }

  /** So the adjoint is missed by what is dropped. */
  lemma MissedBy(kernels: Kernels, outer: map<NodeId, Node>, loop: Loop, fwd: Loop, p: Pushes, bwd: Loop, b: Pops,
                 d: BodyGradient, env: Env, tan: ValueId -> Number)
    requires Differentiated(outer, loop, fwd, p, bwd, b, d) && bwd.Run(kernels, env, [])
    requires TangentRun(loop, d, [], tan, [])
    ensures LoopIsAdjoint(loop, b, d, env, tan) <==>
      Dot(loop.States(), Dropped(loop, b, env), InputTangents(loop, tan)) == 0.0
  {
    hide Dot, Differentiated, Dropped, bwd.Run;
    forall i: nat | i < loop.States() ensures Received(b, env)(i) == PassedOn(b, d, env)(i) + Dropped(loop, b, env)(i) {
      PassedOnOrDropped(kernels, outer, loop, fwd, p, bwd, b, d, env, i);
    }
    forall i: nat | i < loop.States() ensures OutputTangents(loop, tan)(i) == InputTangents(loop, tan)(i) {
      assert tan(loop.outputs[i]).du == TangentAt(loop, tan, [], 0, i);
    }
    DotEqual(loop.States(), Received(b, env), Received(b, env), OutputTangents(loop, tan), InputTangents(loop, tan));
    DotPlus(loop.States(), PassedOn(b, d, env), Dropped(loop, b, env), Received(b, env), InputTangents(loop, tan));
  }

  ghost function PerInput(loop: Loop, f: nat -> real, tan: ValueId -> Number, k: nat): ValueId -> real
    requires loop.Fits()
  {
    (v: ValueId) => ReverseMode.Sum(k, FedBy(loop, f, v)) * tan(v).du
  }

  lemma OneMoreState(loop: Loop, f: nat -> real, tan: ValueId -> Number, k: nat, v: ValueId)
    requires loop.Fits() && k < loop.States()
    ensures PerInput(loop, f, tan, k + 1)(v) == PerInput(loop, f, tan, k)(v) + At(loop.inputs[2 + k], f(k), tan)(v)
  {
    var here := FedBy(loop, f, v);
    Spread(ReverseMode.Sum(k, here), here(k), tan(v).du);
  }

  lemma NoState(loop: Loop, f: nat -> real, tan: ValueId -> Number, bound: nat)
    requires loop.Fits()
    ensures Dot(0, f, InputTangents(loop, tan)) == ReverseMode.Sum(bound, PerInput(loop, f, tan, 0))
  {
    forall v: ValueId ensures PerInput(loop, f, tan, 0)(v) == 0.0 {
      assert ReverseMode.Sum(0, FedBy(loop, f, v)) == 0.0;
    }
    SumAt(bound, PerInput(loop, f, tan, 0), bound);
  }

  lemma DotMore(k: nat, a: nat -> real, t: nat -> real)
    ensures Dot(k + 1, a, t) == Dot(k, a, t) + a(k) * t(k)
  {
  }

  /** Summed by states or by the values that feed them. */
  lemma {:induction false} SumByInput(loop: Loop, f: nat -> real, tan: ValueId -> Number, k: nat, bound: nat)
    requires loop.Fits() && k <= loop.States() && AllIn(loop.inputs, bound)
    ensures Dot(k, f, InputTangents(loop, tan)) == ReverseMode.Sum(bound, PerInput(loop, f, tan, k))
  {
    hide ReverseMode.Sum, PerInput, FedBy, At;
    if k == 0 {
      NoState(loop, f, tan, bound);
    } else {
      var x := loop.inputs[2 + (k - 1)];
      SumByInput(loop, f, tan, k - 1, bound);
      assert x in loop.inputs;
      forall v: ValueId | v < bound
        ensures PerInput(loop, f, tan, k)(v) == PerInput(loop, f, tan, k - 1)(v) + At(x, f(k - 1), tan)(v)
      {
        OneMoreState(loop, f, tan, k - 1, v);
      }
      DotMore(k - 1, f, InputTangents(loop, tan));
      SumPlus(bound, PerInput(loop, f, tan, k - 1), At(x, f(k - 1), tan), PerInput(loop, f, tan, k));
      AtSum(bound, x, f(k - 1), tan);
    }
  }

  lemma {:induction false} Bound(vs: seq<ValueId>) returns (bound: nat)
    ensures AllIn(vs, bound)
  {
    if vs == [] {
      bound := 0;
    } else {
      var below := Bound(vs[1..]);
      bound := if vs[0] < below then below else vs[0] + 1;
      assert vs == [vs[0]] + vs[1..];
    }
  }

  /** The tangent 1 at `v`, and at the outputs of states fed by `v`. */
  ghost function Unit(loop: Loop, v: ValueId): ValueId -> Number
    requires loop.Fits() && |loop.outputs| == loop.States()
  {
    (w: ValueId) => Number(0.0, if (if w in loop.outputs then loop.inputs[2 + IndexOf(loop.outputs, w)] else w) ==
      v then 1.0 else 0.0)
  }

  lemma UnitRuns(loop: Loop, d: BodyGradient, v: ValueId)
    requires StatesOf(loop, d) && |loop.outputs| == loop.States() && Distinct(loop.outputs)
    requires forall o :: o in loop.outputs ==> o !in loop.inputs
    ensures TangentRun(loop, d, [], Unit(loop, v), [])
    ensures forall i: nat :: i < loop.States() ==>
      InputTangents(loop, Unit(loop, v))(i) == if loop.inputs[2 + i] == v then 1.0 else 0.0
  {
    forall i: nat | i < loop.States()
      ensures loop.inputs[2 + i] !in loop.outputs && IndexOf(loop.outputs, loop.outputs[i]) == i
    {
      assert loop.inputs[2 + i] in loop.inputs;
      assert loop.outputs[IndexOf(loop.outputs, loop.outputs[i])] == loop.outputs[i];
    }
  }

  /** Along the unit tangent of `v` exactly what is lost of its gradient is missed. */
  lemma UnitMisses(loop: Loop, d: BodyGradient, b: Pops, env: Env, v: ValueId)
    requires StatesOf(loop, d) && |loop.outputs| == loop.States() && Distinct(loop.outputs)
    requires forall o :: o in loop.outputs ==> o !in loop.inputs
    ensures Dot(loop.States(), Dropped(loop, b, env), InputTangents(loop, Unit(loop, v))) == Lost(loop, b, env, v)
  {
    hide Dropped, Unit;
    UnitRuns(loop, d, v);
    var f, t := Dropped(loop, b, env), InputTangents(loop, Unit(loop, v));
    SumEqual(loop.States(), (i: nat) => f(i) * t(i), FedBy(loop, f, v));
  }

  /** The backward loop is the adjoint of the forward loop exactly when there are iterations or
      when, for each input value, what comes in for the states that it feeds and that do not matter
      to the body adds up to nothing. */
  lemma LoopAdjoint(kernels: Kernels, outer: map<NodeId, Node>, loop: Loop, fwd: Loop, p: Pushes, bwd: Loop, b: Pops,
                    d: BodyGradient, env: Env, envs: seq<Env>, backs: seq<Env>)
    requires Differentiated(outer, loop, fwd, p, bwd, b, d) && JointRun(kernels, outer, fwd, bwd, env, envs, backs)
    requires Distinct(loop.outputs) && forall o :: o in loop.outputs ==> o !in loop.inputs
    ensures loop.Fits()
    ensures (forall tan: ValueId -> Number, tans :: TangentRun(loop, d, envs, tan, tans) ==>
      LoopIsAdjoint(loop, b, d, env, tan))
      <==> |envs| > 0 || NothingLost(loop, b, env)
  {
    hide Differentiated, JointRun, TangentRun, LoopIsAdjoint, NothingLost, Distinct;
    LoopFits(outer, loop, fwd, p, bwd, b, d);
    if |envs| > 0 {
      forall tan: ValueId -> Number, tans | TangentRun(loop, d, envs, tan, tans)
        ensures LoopIsAdjoint(loop, b, d, env, tan)
      {
        IteratedAdjoint(kernels, outer, loop, fwd, p, bwd, b, d, env, envs, backs, tan, tans);
      }
    } else {
      NoIterationsBack(kernels, outer, loop, fwd, p, bwd, b, d, env, envs, backs);
      if NothingLost(loop, b, env) {
        forall tan: ValueId -> Number, tans | TangentRun(loop, d, envs, tan, tans)
          ensures LoopIsAdjoint(loop, b, d, env, tan)
        {
          NothingLostAdjoint(kernels, outer, loop, fwd, p, bwd, b, d, env, envs, tan, tans);
        }
      } else {
        LostIsMissed(kernels, outer, loop, fwd, p, bwd, b, d, env, envs);
      }
    }
  }

  lemma LoopFits(outer: map<NodeId, Node>, loop: Loop, fwd: Loop, p: Pushes, bwd: Loop, b: Pops, d: BodyGradient)
    requires Differentiated(outer, loop, fwd, p, bwd, b, d)
    ensures loop.Fits() && |loop.outputs| == loop.States() && StatesOf(loop, d)
  {
  }

  lemma NoIterationsBack(kernels: Kernels, outer: map<NodeId, Node>, loop: Loop, fwd: Loop, p: Pushes, bwd: Loop,
                         b: Pops, d: BodyGradient, env: Env, envs: seq<Env>, backs: seq<Env>)
    requires Differentiated(outer, loop, fwd, p, bwd, b, d) && JointRun(kernels, outer, fwd, bwd, env, envs, backs)
    requires |envs| == 0
    ensures bwd.Run(kernels, env, [])
  {
    hide PopsAll, d.TwoGraphs, d.Adjoint, Within, Solves, Counts, Stacks, d.Wired, fwd.Run, bwd.Run, DropsExactly;
    StacksPairUp(kernels, outer, loop, fwd, p, bwd, b, d.retained, env, envs, backs);
    assert backs == [];
  }

  lemma NothingLostAdjoint(kernels: Kernels, outer: map<NodeId, Node>, loop: Loop, fwd: Loop, p: Pushes, bwd: Loop,
                           b: Pops, d: BodyGradient, env: Env, envs: seq<Env>, tan: ValueId -> Number,
                           tans: seq<ValueId -> Number>)
    requires Differentiated(outer, loop, fwd, p, bwd, b, d) && bwd.Run(kernels, env, []) && envs == [] && loop.Fits()
    requires TangentRun(loop, d, envs, tan, tans) && NothingLost(loop, b, env)
    ensures LoopIsAdjoint(loop, b, d, env, tan)
  {
    hide Differentiated, LoopIsAdjoint, Dropped, Dot, bwd.Run;
    assert tans == [];
    MissedBy(kernels, outer, loop, fwd, p, bwd, b, d, env, tan);
    var bound := Bound(loop.inputs);
    var dropped := Dropped(loop, b, env);
    SumByInput(loop, dropped, tan, loop.States(), bound);
    forall v: ValueId | v < bound ensures PerInput(loop, dropped, tan, loop.States())(v) == 0.0 {
      assert Lost(loop, b, env, v) == 0.0;
    }
    SumAt(bound, PerInput(loop, dropped, tan, loop.States()), bound);
  }

  /** A gradient of which something is lost is missed along its own tangent. */
  lemma LostIsMissed(kernels: Kernels, outer: map<NodeId, Node>, loop: Loop, fwd: Loop, p: Pushes, bwd: Loop, b: Pops,
                     d: BodyGradient, env: Env, envs: seq<Env>)
    requires Differentiated(outer, loop, fwd, p, bwd, b, d) && bwd.Run(kernels, env, []) && envs == []
    requires StatesOf(loop, d)
    requires |loop.outputs| == loop.States() && Distinct(loop.outputs)
    requires forall o :: o in loop.outputs ==> o !in loop.inputs
    requires !NothingLost(loop, b, env)
    ensures exists tan: ValueId -> Number, tans ::
      TangentRun(loop, d, envs, tan, tans) && !LoopIsAdjoint(loop, b, d, env, tan)
  {
    hide Differentiated, LoopIsAdjoint, Dropped, Dot, bwd.Run, TangentRun, Unit, Lost;
    var v: ValueId :| Lost(loop, b, env, v) != 0.0;
    UnitRuns(loop, d, v);
    UnitMisses(loop, d, b, env, v);
    MissedBy(kernels, outer, loop, fwd, p, bwd, b, d, env, Unit(loop, v));
    assert TangentRun(loop, d, envs, Unit(loop, v), []);
  }
}
