/** The nodes of a gradient can be run: every run of the forward graph extends to them. */
module GradientRuns {
  import opened Ir
  import opened GraphIr
  import opened Builder
  import opened Dual
  import opened GradientOps

  ghost predicate AgreeBelow(a: Env, b: Env, bound: nat) {
    forall v: ValueId :: v < bound ==> a(v) == b(v)
  }

  /** The new node that writes `v`. */
  ghost predicate NewWriter(first: map<NodeId, Node>, node: map<NodeId, Node>, producer: map<ValueId, NodeId>,
                            v: ValueId) {
    v in producer && producer[v] in node && producer[v] !in first && v in node[producer[v]].outputs
  }

  /** `env` with the new values below `bound` computed, one after the other. */
  ghost function Computed(kernels: Kernels, first: map<NodeId, Node>, node: map<NodeId, Node>,
                          producer: map<ValueId, NodeId>, env: Env, base: nat, bound: nat): Env
    decreases bound
  {
    if bound <= base then env
    else
      var v := bound - 1;
      var e := Computed(kernels, first, node, producer, env, base, v);
      if NewWriter(first, node, producer, v) then
        var r := Apply(kernels, node[producer[v]].op, Vals(e, node[producer[v]].inputs));
        (w: ValueId) => if w == v && r != [] then r[0] else e(w)
      else e
  }

  lemma {:induction false} ExtendedAgrees(kernels: Kernels, first: map<NodeId, Node>, node: map<NodeId, Node>,
                                          producer: map<ValueId, NodeId>, env: Env, base: nat, low: nat, high: nat)
    requires base <= low <= high
    ensures AgreeBelow(Computed(kernels, first, node, producer, env, base, low),
                       Computed(kernels, first, node, producer, env, base, high), low)
    decreases high
  {
    if low < high { ExtendedAgrees(kernels, first, node, producer, env, base, low, high - 1); }
  }

  /** `env` with every placeholder holding what it stands for. */
  ghost function Holding(retained: map<ValueId, ValueId>, env: Env): Env {
    (w: ValueId) => env(HeldBy(retained, w))
  }

  /** The value a placeholder stands for. */
  ghost function HeldBy(retained: map<ValueId, ValueId>, w: ValueId): (v: ValueId)
    ensures if exists u :: u in retained && retained[u] == w then v in retained && retained[v] == w else v == w
  {
    if v :| v in retained && retained[v] == w then v else w
  }

  /** What is known of the graphs when gradient nodes have been made: `first` are the nodes that
      were in the receiving graph before. */
  ghost predicate Graphs(g: Snapshot, first: map<NodeId, Node>, node: map<NodeId, Node>, producer: map<ValueId, NodeId>,
                         retained: map<ValueId, ValueId>, base: nat) {
    && NodesBelow(g.node, base) && NodesBelow(first, base) && Newer(first, node, base, 0)
    && AllSound(g, first, node, retained)
    && Written(node, producer, {}) && Within(first, node)
    && Placeholders(retained, producer) && forall v :: v in retained ==> v < base <= retained[v]
  }

  lemma HoldingMeans(retained: map<ValueId, ValueId>, producer: map<ValueId, NodeId>, env: Env, base: nat)
    requires Placeholders(retained, producer) && forall v :: v in retained ==> v < base <= retained[v]
    ensures AgreeBelow(env, Holding(retained, env), base)
    ensures forall v :: v in retained ==> Holding(retained, env)(retained[v]) == env(v)
  {
    forall w: ValueId | w < base ensures env(w) == Holding(retained, env)(w) {
      var u := HeldBy(retained, w);
      assert u == w;
    }
    forall v | v in retained ensures Holding(retained, env)(retained[v]) == env(v) {
      var u := HeldBy(retained, retained[v]);
      assert u == v;
    }
  }

  /** A value that no new node writes is not computed. */
  lemma {:induction false} ExtendedKeeps(kernels: Kernels, first: map<NodeId, Node>, node: map<NodeId, Node>,
                                         producer: map<ValueId, NodeId>, env: Env, base: nat, bound: nat, w: ValueId)
    requires !NewWriter(first, node, producer, w)
    ensures Computed(kernels, first, node, producer, env, base, bound)(w) == env(w)
    decreases bound
  {
    hide NewWriter, Apply;
    if bound > base { ExtendedKeeps(kernels, first, node, producer, env, base, bound - 1, w); }
  }

  /** A new constant holds what it says. */
  lemma ConstantComputed(kernels: Kernels, first: map<NodeId, Node>, node: map<NodeId, Node>,
                         producer: map<ValueId, NodeId>, env: Env, base: nat, bound: nat, n: NodeId, c: Data,
                         r: ValueId)
    requires n in node && n !in first && node[n] == Node(Constant(c), [], [r]) && Written(node, producer, {})
    requires base <= r < bound
    ensures Computed(kernels, first, node, producer, env, base, bound)(r) == c
  {
    assert node[n].outputs[0] == r;
    ExtendedAgrees(kernels, first, node, producer, env, base, r + 1, bound);
    assert Vals(Computed(kernels, first, node, producer, env, base, r), []) == [];
  }

  /** What stands for a divisor holds the divisor by the time it is read. */
  lemma KeptComputed(kernels: Kernels, g: Snapshot, first: map<NodeId, Node>, node: map<NodeId, Node>,
                     producer: map<ValueId, NodeId>, retained: map<ValueId, ValueId>, env: Env, base: nat, bound: nat,
                     v: ValueId, r: ValueId)
    requires Graphs(g, first, node, producer, retained, base) && Kept(g, node, retained, v, r) && v < base && r < bound
    requires Solves(kernels, g.node, env) && Solves(kernels, first, env) && base <= bound
    ensures Computed(kernels, first, node, producer, Holding(retained, env), base, bound)(r) == env(v)
  {
    hide AllSound, Holds, Apply;
    var start := Holding(retained, env);
    var e := Computed(kernels, first, node, producer, start, base, bound);
    HoldingMeans(retained, producer, env, base);
    ExtendedAgrees(kernels, first, node, producer, start, base, base, bound);
    ExtendedNone(kernels, first, node, producer, start, base);
    if r == v {
    } else if v in retained && retained[v] == r {
      ExtendedKeeps(kernels, first, node, producer, start, base, bound, r);
    } else {
      var c := g.node[g.producer[v]];
      assert Holds(kernels, c, env);
      ConstantHolds(kernels, c, env, v);
      var n :| n in node && node[n] == Node(c.op, [], [r]);
      if n in first {
        assert first[n] == node[n] && Holds(kernels, first[n], env) && BelowNode(first[n], base);
        ConstantHolds(kernels, first[n], env, r);
        assert r in first[n].outputs;
      } else {
        assert node[n].outputs[0] == r;
        ConstantComputed(kernels, first, node, producer, start, base, bound, n, c.op.c, r);
      }
    }
  }

  lemma ConstantHolds(kernels: Kernels, n: Node, env: Env, v: ValueId)
    requires Holds(kernels, n, env) && n.op.Constant? && n.outputs == [v]
    ensures env(v) == n.op.c
  {
    assert Vals(env, [v]) == [env(v)];
  }

  /** A sound node has one result whatever its operands are; a divisor is one of the forward graph. */
  lemma SoundApplies(kernels: Kernels, g: Snapshot, first: map<NodeId, Node>, node: map<NodeId, Node>,
                     producer: map<ValueId, NodeId>, retained: map<ValueId, ValueId>, env: Env, base: nat, bound: nat,
                     op: Op, inputs: seq<ValueId>)
    requires Graphs(g, first, node, producer, retained, base) && Sound(g, node, retained, op, inputs) && base <= bound
    requires Solves(kernels, g.node, env) && Solves(kernels, first, env) && forall i :: i in inputs ==> i < bound
    ensures |Apply(kernels, op, Vals(Computed(kernels, first, node, producer, Holding(retained, env), base, bound),
                                     inputs))| == 1
  {
    hide Graphs, Kept, Computed, Solves, Holding;
    if op.Div? {
      var v :| Divisor(g, v) && Kept(g, node, retained, v, inputs[1]);
      DivisorFacts(kernels, g, first, node, producer, retained, env, base, v);
      assert inputs[1] in inputs;
      KeptComputed(kernels, g, first, node, producer, retained, env, base, bound, v, inputs[1]);
    }
  }

  lemma DivisorFacts(kernels: Kernels, g: Snapshot, first: map<NodeId, Node>, node: map<NodeId, Node>,
                     producer: map<ValueId, NodeId>, retained: map<ValueId, ValueId>, env: Env, base: nat, v: ValueId)
    requires Graphs(g, first, node, producer, retained, base) && Divisor(g, v) && Solves(kernels, g.node, env)
    ensures v < base && RealOf(env(v)) != 0.0
  {
    hide AllSound, Newer, Written, Within, Placeholders;
    var n :| n in g.node && g.node[n].op.Div? && |g.node[n].inputs| == 2 && g.node[n].inputs[1] == v
      && g.node[n].outputs != [];
    assert Holds(kernels, g.node[n], env);
    assert BelowNode(g.node[n], base) && v in g.node[n].inputs;
    DivisorNonZero(kernels, g.node[n], env);
  }

  lemma DivisorNonZero(kernels: Kernels, n: Node, env: Env)
    requires Holds(kernels, n, env) && n.op.Div? && |n.inputs| == 2 && n.outputs != []
    ensures RealOf(env(n.inputs[1])) != 0.0
  {
    assert Vals(env, n.outputs) == Apply(kernels, n.op, Vals(env, n.inputs));
    assert |Vals(env, n.outputs)| > 0;
  }

  /** The new node with id `n` holds in the extension. */
  lemma NewNodeHolds(kernels: Kernels, g: Snapshot, first: map<NodeId, Node>, node: map<NodeId, Node>,
                     producer: map<ValueId, NodeId>, retained: map<ValueId, ValueId>, env: Env, base: nat, bound: nat,
                     n: NodeId)
    requires Graphs(g, first, node, producer, retained, base) && Solves(kernels, g.node, env)
    requires Solves(kernels, first, env)
    requires n in node && n !in first && forall v :: v in node[n].outputs ==> v < bound
    ensures Holds(kernels, node[n], Computed(kernels, first, node, producer, Holding(retained, env), base, bound))
  {
    hide Apply, Sound, Divisor, Holding, Solves, Placeholders, Within;
    var start := Holding(retained, env);
    var v := node[n].outputs[0];
    assert node[n].outputs == [v] && v in node[n].outputs && producer[v] == n;
    var before := Computed(kernels, first, node, producer, start, base, v);
    var here := Computed(kernels, first, node, producer, start, base, v + 1);
    var after := Computed(kernels, first, node, producer, start, base, bound);
    SoundApplies(kernels, g, first, node, producer, retained, env, base, v, node[n].op, node[n].inputs);
    ExtendedAgrees(kernels, first, node, producer, start, base, v, bound);
    ExtendedAgrees(kernels, first, node, producer, start, base, v + 1, bound);
    SameInputs(before, after, node[n].inputs, v);
    assert Vals(after, [v]) == [after(v)] && after(v) == here(v);
  }

  lemma SameInputs(a: Env, b: Env, vs: seq<ValueId>, bound: nat)
    requires AgreeBelow(a, b, bound) && forall v :: v in vs ==> v < bound
    ensures Vals(a, vs) == Vals(b, vs)
  {
    forall i | 0 <= i < |vs| ensures a(vs[i]) == b(vs[i]) { assert vs[i] in vs; }
  }

  lemma SolvesAlike(kernels: Kernels, node: map<NodeId, Node>, env: Env, env': Env, base: nat)
    requires Solves(kernels, node, env) && NodesBelow(node, base) && AgreeBelow(env, env', base)
    ensures Solves(kernels, node, env')
  {
    hide Holds;
    forall n | n in node ensures Holds(kernels, node[n], env') {
      assert BelowNode(node[n], base);
      HoldsAlike(kernels, node[n], env, env');
    }
  }

  /** Every run of the forward graph and of what was in the receiving graph, with any gradients for
      the outputs, is part of a run with the gradient nodes, in which every placeholder holds
      what it stands for. */
  lemma RunExtends(kernels: Kernels, g: Snapshot, first: map<NodeId, Node>, node: map<NodeId, Node>,
                   producer: map<ValueId, NodeId>, retained: map<ValueId, ValueId>, env: Env, base: nat, bound: nat)
    returns (env': Env)
    requires Graphs(g, first, node, producer, retained, base) && base <= bound && NodesBelow(node, bound)
    requires Solves(kernels, g.node, env) && Solves(kernels, first, env)
    ensures Consistent(kernels, node, g.node, retained, env') && AgreeBelow(env, env', base)
    ensures env' == Computed(kernels, first, node, producer, Holding(retained, env), base, bound)
  {
    hide Holds, AllSound, Computed, Solves, Newer;
    var start := Holding(retained, env);
    env' := Computed(kernels, first, node, producer, start, base, bound);
    HoldingMeans(retained, producer, env, base);
    ExtendedAgrees(kernels, first, node, producer, start, base, base, bound);
    ExtendedNone(kernels, first, node, producer, start, base);
    SolvesAlike(kernels, g.node, env, env', base);
    SolvesAlike(kernels, first, env, env', base);
    AllHold(kernels, g, first, node, producer, retained, env, base, bound);
    forall v | v in retained ensures env'(retained[v]) == env'(v) {
      ExtendedKeeps(kernels, first, node, producer, start, base, bound, retained[v]);
    }
  }

  lemma AllHold(kernels: Kernels, g: Snapshot, first: map<NodeId, Node>, node: map<NodeId, Node>,
                producer: map<ValueId, NodeId>, retained: map<ValueId, ValueId>, env: Env, base: nat, bound: nat)
    requires Graphs(g, first, node, producer, retained, base) && NodesBelow(node, bound)
    requires Solves(kernels, g.node, env) && Solves(kernels, first, env)
    requires Solves(kernels, first, Computed(kernels, first, node, producer, Holding(retained, env), base, bound))
    ensures Solves(kernels, node, Computed(kernels, first, node, producer, Holding(retained, env), base, bound))
  {
    hide Holds, AllSound, Computed, Newer, Holding;
    var env' := Computed(kernels, first, node, producer, Holding(retained, env), base, bound);
    forall n | n in node ensures Holds(kernels, node[n], env') {
      assert BelowNode(node[n], bound);
      if n in first {
        assert node[n] == first[n];
      } else {
        NewNodeHolds(kernels, g, first, node, producer, retained, env, base, bound, n);
      }
    }
  }

  lemma ExtendedNone(kernels: Kernels, first: map<NodeId, Node>, node: map<NodeId, Node>,
                     producer: map<ValueId, NodeId>, env: Env, base: nat)
    ensures Computed(kernels, first, node, producer, env, base, base) == env
  {
  }

  /** What lies below `m` afterwards depends only on what lay below `m` before. */
  lemma {:induction false} ExtendedSame(kernels: Kernels, first: map<NodeId, Node>, node: map<NodeId, Node>,
                                        producer: map<ValueId, NodeId>, a: Env, b: Env, base: nat, bound: nat, m: nat)
    requires AgreeBelow(a, b, m) && Newer(first, node, base, 0) && Written(node, producer, {})
    ensures AgreeBelow(Computed(kernels, first, node, producer, a, base, bound),
                       Computed(kernels, first, node, producer, b, base, bound), m)
    decreases bound
  {
    if bound > base {
      var v := bound - 1;
      ExtendedSame(kernels, first, node, producer, a, b, base, v, m);
      if NewWriter(first, node, producer, v) && v < m {
        var n := node[producer[v]];
        assert n.outputs[0] == v;
        SameInputs(Computed(kernels, first, node, producer, a, base, v),
                   Computed(kernels, first, node, producer, b, base, v), n.inputs, m);
      }
    }
  }

  /** Every run of the forward graph continues as a run of `node`, with the values below `base` as they are. */
  ghost predicate RunsOn(forward: map<NodeId, Node>, node: map<NodeId, Node>, base: nat) {
    forall kernels: Kernels, env: Env :: Solves(kernels, forward, env) ==> Continues(kernels, node, env, base)
  }

  ghost predicate Continues(kernels: Kernels, node: map<NodeId, Node>, env: Env, base: nat) {
    exists env': Env :: Solves(kernels, node, env') && AgreeBelow(env, env', base)
  }

  lemma AlwaysExtends(g: Snapshot, node: map<NodeId, Node>, producer: map<ValueId, NodeId>, base: nat, bound: nat)
    requires Graphs(g, g.node, node, producer, map[], base) && base <= bound && NodesBelow(node, bound)
    ensures RunsOn(g.node, node, base)
  {
    hide Graphs, Solves, NodesBelow, AgreeBelow;
    forall kernels: Kernels, env: Env | Solves(kernels, g.node, env) ensures Continues(kernels, node, env, base) {
      var env' := RunExtends(kernels, g, g.node, node, producer, map[], env, base, bound);
      ConsistentSolves(kernels, node, g.node, map[], env');
    }
  }
}
