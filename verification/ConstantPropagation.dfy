/** compiler/constant_propagation.cc: nodes whose inputs are constants become constants. */
module ConstantPropagation {
  import opened Ir
  import opened GraphIr
  import opened Builder
  import opened Rewriting

  // ---- folding one node ----

  /** HasConstantInputsOnly: there are inputs, and all are constants. */
  predicate HasConstantInputsOnly(node: map<NodeId, Node>, producer: map<ValueId, NodeId>, n: NodeId)
    requires n in node
  {
    node[n].inputs != [] && forall v :: v in node[n].inputs ==> IsConstant(node, producer, v)
  }

  function ConstantOf(node: map<NodeId, Node>, producer: map<ValueId, NodeId>, v: ValueId): Data
    requires IsConstant(node, producer, v)
  {
    node[producer[v]].op.c
  }

  function ConstantsOf(node: map<NodeId, Node>, producer: map<ValueId, NodeId>, vs: seq<ValueId>): (r: seq<Data>)
    requires forall v :: v in vs ==> IsConstant(node, producer, v)
    ensures |r| == |vs| && forall i :: 0 <= i < |vs| ==> r[i] == ConstantOf(node, producer, (assert vs[i] in vs; vs[i]))
  {
    seq(|vs|, i requires 0 <= i < |vs| => (assert vs[i] in vs; ConstantOf(node, producer, vs[i])))
  }

  /** What the evaluator gives for the outputs of a node. */
  function Evaluated(kernels: Kernels, n: Node, args: seq<Data>): seq<Data> {
    if n.outputs == [] then [] else Apply(kernels, n.op, args)
  }

  /** `after` has, in place of `n`, one Constant node for every output of `n`. */
  ghost predicate Folded(before: map<NodeId, Node>, after: map<NodeId, Node>, n: NodeId, results: seq<Data>) {
    && n in before && |results| == |before[n].outputs| && n !in after
    && (forall m :: m in before && m != n ==> m in after && after[m] == before[m])
    && (forall k :: 0 <= k < |results| ==> Has(after, Node(Constant(results[k]), [], [before[n].outputs[k]])))
    && (forall m :: m in after && m !in before ==> NewConstant(after[m], before[n].outputs, results))
  }

  ghost predicate NewConstant(m: Node, outputs: seq<ValueId>, results: seq<Data>)
    requires |results| == |outputs|
  {
    exists k :: 0 <= k < |results| && m == Node(Constant(results[k]), [], [outputs[k]])
  }

  lemma ConstantMeans(kernels: Kernels, node: map<NodeId, Node>, producer: map<ValueId, NodeId>, env: Env, v: ValueId)
    requires IsConstant(node, producer, v) && Solves(kernels, node, env)
    ensures env(v) == ConstantOf(node, producer, v)
  {
    var c := node[producer[v]];
    assert Holds(kernels, c, env);
    assert Vals(env, [v])[0] == env(v);
  }

  lemma ConstantsMean(kernels: Kernels, node: map<NodeId, Node>, producer: map<ValueId, NodeId>, env: Env,
                      vs: seq<ValueId>)
    requires (forall v :: v in vs ==> IsConstant(node, producer, v)) && Solves(kernels, node, env)
    ensures Vals(env, vs) == ConstantsOf(node, producer, vs)
  {
    hide Solves;
    forall i | 0 <= i < |vs| ensures env(vs[i]) == ConstantsOf(node, producer, vs)[i] {
      assert vs[i] in vs;
      ConstantMeans(kernels, node, producer, env, vs[i]);
    }
  }

  lemma NewConstantHolds(kernels: Kernels, env: Env, d: Data, v: ValueId)
    ensures Holds(kernels, Node(Constant(d), [], [v]), env) <==> env(v) == d
  {
    assert Vals(env, [v]) == [env(v)];
  }

  /** Folding changes the set of runs not at all. */
  lemma FoldedSolves(kernels: Kernels, before: map<NodeId, Node>, producer: map<ValueId, NodeId>,
                     after: map<NodeId, Node>, n: NodeId, results: seq<Data>, env: Env)
    requires Folded(before, after, n, results)
    requires forall v :: v in before[n].inputs ==> IsConstant(before, producer, v) && producer[v] != n
    requires results == Evaluated(kernels, before[n], ConstantsOf(before, producer, before[n].inputs))
    ensures Solves(kernels, before, env) <==> Solves(kernels, after, env)
  {
    hide Holds, Apply;
    if Solves(kernels, before, env) {
      FoldedForward(kernels, before, producer, after, n, results, env);
    }
    if Solves(kernels, after, env) {
      FoldedBackward(kernels, before, producer, after, n, results, env);
    }
  }

  lemma FoldedForward(kernels: Kernels, before: map<NodeId, Node>, producer: map<ValueId, NodeId>,
                      after: map<NodeId, Node>, n: NodeId, results: seq<Data>, env: Env)
    requires Folded(before, after, n, results) && Solves(kernels, before, env)
    requires forall v :: v in before[n].inputs ==> IsConstant(before, producer, v)
    requires results == Evaluated(kernels, before[n], ConstantsOf(before, producer, before[n].inputs))
    ensures Solves(kernels, after, env)
  {
    hide Apply, IsConstant;
    ConstantsMean(kernels, before, producer, env, before[n].inputs);
    assert Holds(kernels, before[n], env);
    forall m | m in after ensures Holds(kernels, after[m], env) {
      if m in before {
        assert Holds(kernels, before[m], env);
      } else {
        var k :| 0 <= k < |results| && after[m] == Node(Constant(results[k]), [], [before[n].outputs[k]]);
        assert Vals(env, before[n].outputs)[k] == results[k];
        NewConstantHolds(kernels, env, results[k], before[n].outputs[k]);
      }
    }
  }

  lemma FoldedBackward(kernels: Kernels, before: map<NodeId, Node>, producer: map<ValueId, NodeId>,
                       after: map<NodeId, Node>, n: NodeId, results: seq<Data>, env: Env)
    requires Folded(before, after, n, results) && Solves(kernels, after, env)
    requires forall v :: v in before[n].inputs ==> IsConstant(before, producer, v) && producer[v] != n
    requires results == Evaluated(kernels, before[n], ConstantsOf(before, producer, before[n].inputs))
    ensures Solves(kernels, before, env)
  {
    hide Apply;
    forall i | 0 <= i < |before[n].inputs|
      ensures env(before[n].inputs[i]) == ConstantsOf(before, producer, before[n].inputs)[i]
    {
      var v := before[n].inputs[i];
      assert v in before[n].inputs;
      assert after[producer[v]] == before[producer[v]];
      ConstantMeans(kernels, after, producer, env, v);
    }
    assert Vals(env, before[n].inputs) == ConstantsOf(before, producer, before[n].inputs);
    forall k | 0 <= k < |results| ensures env(before[n].outputs[k]) == results[k] {
      HasMeans(kernels, after, env, Node(Constant(results[k]), [], [before[n].outputs[k]]));
      NewConstantHolds(kernels, env, results[k], before[n].outputs[k]);
    }
    assert Vals(env, before[n].outputs) == results;
    forall m | m in before ensures Holds(kernels, before[m], env) {
      if m != n { assert after[m] == before[m]; }
    }
  }

  lemma SameRunsEquivalent(kernels: Kernels, a: map<NodeId, Node>, b: map<NodeId, Node>, keep: set<ValueId>)
    requires forall env: Env :: Solves(kernels, a, env) <==> Solves(kernels, b, env)
    ensures Equivalent(kernels, a, b, keep)
  {
    hide Solves;
    forall env: Env | Solves(kernels, a, env) ensures Continues(kernels, b, keep, env) { assert Agree(keep, env, env); }
    forall env: Env | Solves(kernels, b, env) ensures Continues(kernels, a, keep, env) { assert Agree(keep, env, env); }
  }

  lemma FoldedIsEquivalent(kernels: Kernels, before: map<NodeId, Node>, producer: map<ValueId, NodeId>,
                           after: map<NodeId, Node>, n: NodeId, results: seq<Data>, keep: set<ValueId>)
    requires Folded(before, after, n, results)
    requires forall v :: v in before[n].inputs ==> IsConstant(before, producer, v) && producer[v] != n
    requires results == Evaluated(kernels, before[n], ConstantsOf(before, producer, before[n].inputs))
    ensures Equivalent(kernels, before, after, keep)
  {
    hide Folded, IsConstant, Apply, Solves, Equivalent;
    forall env: Env ensures Solves(kernels, before, env) <==> Solves(kernels, after, env) {
      FoldedSolves(kernels, before, producer, after, n, results, env);
    }
    SameRunsEquivalent(kernels, before, after, keep);
  }

  // ---- dropping a constant ----

  /** A Constant node whose value nobody reads may go. */
  lemma DropIsEquivalent(kernels: Kernels, before: map<NodeId, Node>, c: NodeId, v: ValueId, keep: set<ValueId>)
    requires c in before && before[c].op.Constant? && before[c].outputs == [v] && before[c].inputs == [] && v !in keep
    requires forall m :: m in before && m != c ==> !Mentions(before[m], v)
    ensures Equivalent(kernels, before, before - {c}, keep)
  {
    hide Holds, Mentions;
    var after := before - {c};
    forall env: Env | Solves(kernels, before, env) ensures Continues(kernels, after, keep, env) {
      assert Solves(kernels, after, env) && Agree(keep, env, env);
    }
    forall env': Env | Solves(kernels, after, env') ensures Continues(kernels, before, keep, env') {
      var d := before[c].op.c;
      var env := With(env', v, d);
      NewConstantHolds(kernels, env, d, v);
      assert before[c] == Node(Constant(d), [], [v]);
      forall m | m in before ensures Holds(kernels, before[m], env) {
        if m != c { assert after[m] == before[m]; HoldsWith(kernels, before[m], env', v, d); }
      }
      assert Solves(kernels, before, env) && Agree(keep, env', env);
    }
  }

  // ---- the pass ----

  /** No attached node reads a value whose writer has been detached. */
  ghost predicate NoStaleInputs(node: map<NodeId, Node>, producer: map<ValueId, NodeId>) {
    forall n, v :: n in node && v in node[n].inputs && v in producer ==> producer[v] in node
  }

  ghost predicate Sound(graph: Graph)
    reads graph
  {
    graph.Valid({}) && Listed(graph) && ConstantsAreSources(graph.node) && NoStaleInputs(graph.node, graph.producer)
  }

  function NonConstants(node: map<NodeId, Node>): set<NodeId> {
    set n | n in node && !node[n].op.Constant?
  }

  /** Constants for the first `k` outputs have been added; `n` is on its way out. */
  ghost predicate Folding(before: map<NodeId, Node>, node: map<NodeId, Node>, n: NodeId, results: seq<Data>, k: nat) {
    && n in before && k <= |results| == |before[n].outputs|
    && (forall m :: m in before ==> m in node && node[m] == before[m])
    && (forall i :: 0 <= i < k ==> Has(node, Node(Constant(results[i]), [], [before[n].outputs[i]])))
    && (forall m :: m in node && m !in before ==> NewConstant(node[m], before[n].outputs, results))
  }

  lemma FoldingMore(before: map<NodeId, Node>, node: map<NodeId, Node>, n: NodeId, results: seq<Data>, k: nat,
                    c: NodeId)
    requires Folding(before, node, n, results, k) && k < |results| && c !in node
    ensures Folding(before, node[c := Node(Constant(results[k]), [], [before[n].outputs[k]])], n, results, k + 1)
  {
    hide Has;
    var node' := node[c := Node(Constant(results[k]), [], [before[n].outputs[k]])];
    forall i | 0 <= i < k + 1 ensures Has(node', Node(Constant(results[i]), [], [before[n].outputs[i]])) {
      if i < k { HasLater(node, c, node'[c], Node(Constant(results[i]), [], [before[n].outputs[i]])); }
      if i == k { HasIt(node', c); }
    }
  }

  lemma HasLater(node: map<NodeId, Node>, c: NodeId, m: Node, n: Node)
    requires c !in node && Has(node, n)
    ensures Has(node[c := m], n)
  {
    var id :| id in node && node[id] == n;
    assert node[c := m][id] == n;
  }

  lemma FoldingDone(before: map<NodeId, Node>, node: map<NodeId, Node>, n: NodeId, results: seq<Data>)
    requires Folding(before, node, n, results, |results|) && ConstantsAreSources(before)
    requires !before[n].op.Constant?
    ensures Folded(before, node - {n}, n, results) && ConstantsAreSources(node - {n})
    ensures NonConstants(node - {n}) == NonConstants(before) - {n}
  {
    hide Has;
    forall m | m in node && m !in before
      ensures node[m].op.Constant? && node[m].inputs == [] && |node[m].outputs| == 1
    {
      var k :| 0 <= k < |results| && node[m] == Node(Constant(results[k]), [], [before[n].outputs[k]]);
    }
    forall m ensures m in NonConstants(node - {n}) <==> m in NonConstants(before) - {n} {
    }
    forall i | 0 <= i < |results| ensures Has(node - {n}, Node(Constant(results[i]), [], [before[n].outputs[i]])) {
      HasStill(node, n, Node(Constant(results[i]), [], [before[n].outputs[i]]));
    }
  }

  lemma HasStill(node: map<NodeId, Node>, n: NodeId, m: Node)
    requires Has(node, m) && n in node && node[n] != m
    ensures Has(node - {n}, m)
  {
    var id :| id in node && node[id] == m;
    assert (node - {n})[id] == m;
  }

  /** One Constant node per output, then the node itself goes. */
  method ReplaceByConstants(graph: Graph, n: NodeId, results: seq<Data>)
    requires Sound(graph) && n in graph.node && |results| == |graph.node[n].outputs| && !graph.node[n].op.Constant?
    modifies graph
    ensures Sound(graph) && Folded(old(graph.node), graph.node, n, results)
    ensures NonConstants(graph.node) == NonConstants(old(graph.node)) - {n} && old(graph.nextNode) <= graph.nextNode
    ensures OnlyNewer(old(graph.node), graph.node, old(graph.nextNode))
  {
    hide DefUse, Written, Below, Has, NonConstants, NewConstant, Folded, Folding;
    ghost var before, producer, nextNode := graph.node, graph.producer, graph.nextNode;
    var outputs := graph.node[n].outputs;
    NodeDies(graph, n);
    FoldingNone(before, n, results);
    var k := 0;
    while k < |outputs|
      modifies graph
      invariant 0 <= k <= |outputs| && graph.Valid({n}) && Listed(graph) && n in graph.node
      invariant graph.node[n] == before[n]
      invariant Folding(before, graph.node, n, results, k)
      invariant Rewritten(before, producer, graph.node, graph.producer, n, k)
      invariant forall v :: v in outputs ==> v < graph.nextValue
      invariant Distinct(outputs)
      invariant OnlyNewer(before, graph.node, nextNode) && nextNode <= graph.nextNode
    {
      assert outputs[k] in outputs;
      OutputFree(before, producer, graph.node, graph.producer, n, k);
      ghost var node', producer' := graph.node, graph.producer;
      DistinctOne(outputs[k]);
      var c := graph.AddNode(Constant(results[k]), [], [outputs[k]], {n});
      NodeBelowNext(graph, c);
      FoldingMore(before, node', n, results, k, c);
      RewrittenMore(before, producer, node', producer', graph.node, graph.producer, n, k, c);
      k := k + 1;
    }
    ghost var node := graph.node;
    RewrittenAll(before, producer, node, graph.producer, n);
    graph.Detach(n, {n});
    assert {n} - {n} == {};
    FoldingDone(before, node, n, results);
    FoldedKeepsInputs(before, producer, graph.node, graph.producer, n, results);
  }

  /** Nodes that were not there before have new ids. */
  ghost predicate OnlyNewer(before: map<NodeId, Node>, after: map<NodeId, Node>, nextNode: nat) {
    forall m :: m in after && m !in before ==> m >= nextNode
  }

  lemma NodeBelowNext(graph: Graph, c: NodeId)
    requires Below(graph.node, graph.producer, graph.nextNode, graph.nextValue) && c in graph.node
    ensures c < graph.nextNode
  {
  }

  lemma DistinctOne(v: ValueId)
    ensures Distinct([v])
  {
  }

  lemma FoldingNone(before: map<NodeId, Node>, n: NodeId, results: seq<Data>)
    requires n in before && |results| == |before[n].outputs|
    ensures Folding(before, before, n, results, 0)
  {
  }

  lemma NodeDies(graph: Graph, n: NodeId)
    requires graph.Valid({}) && n in graph.node
    ensures graph.Valid({n}) && Distinct(graph.node[n].outputs)
    ensures forall v :: v in graph.node[n].outputs ==> v < graph.nextValue
    ensures Rewritten(graph.node, graph.producer, graph.node, graph.producer, n, 0)
  {
    hide DefUse;
  }

  /** The first `k` outputs of `n` have new writers, all else its old writer. */
  ghost predicate Rewritten(before: map<NodeId, Node>, producer: map<ValueId, NodeId>, node: map<NodeId, Node>,
                            producer': map<ValueId, NodeId>, n: NodeId, k: nat) {
    && n in before && k <= |before[n].outputs| && before.Keys <= node.Keys
    && (forall v :: v in producer' && v !in before[n].outputs[..k] ==> v in producer && producer'[v] == producer[v])
    && (forall v :: v in before[n].outputs[..k] ==> v in producer' && producer'[v] in node && producer'[v] !in before)
    && (forall v :: v in before[n].outputs ==> v in producer && producer[v] == n)
  }

  lemma OutputFree(before: map<NodeId, Node>, producer: map<ValueId, NodeId>, node: map<NodeId, Node>,
                   producer': map<ValueId, NodeId>, n: NodeId, k: nat)
    requires Rewritten(before, producer, node, producer', n, k) && k < |before[n].outputs|
    requires Distinct(before[n].outputs)
    ensures Free(node, producer', {n}, before[n].outputs[k])
  {
    var o := before[n].outputs[k];
    assert o in before[n].outputs;
    assert o !in before[n].outputs[..k];
  }

  lemma RewrittenMore(before: map<NodeId, Node>, producer: map<ValueId, NodeId>, node: map<NodeId, Node>,
                      producer': map<ValueId, NodeId>, node'': map<NodeId, Node>, producer'': map<ValueId, NodeId>,
                      n: NodeId, k: nat, c: NodeId)
    requires Rewritten(before, producer, node, producer', n, k) && k < |before[n].outputs|
    requires c !in node && c in node'' && node.Keys <= node''.Keys
    requires forall v :: v in producer'' <==> v in producer' || v in [before[n].outputs[k]]
    requires forall v :: v in producer'' ==> producer''[v] == if v in [before[n].outputs[k]] then c else producer'[v]
    ensures Rewritten(before, producer, node'', producer'', n, k + 1)
  {
    assert before[n].outputs[..k + 1] == before[n].outputs[..k] + [before[n].outputs[k]];
  }

  lemma RewrittenAll(before: map<NodeId, Node>, producer: map<ValueId, NodeId>, node: map<NodeId, Node>,
                     producer': map<ValueId, NodeId>, n: NodeId)
    requires n in before && Rewritten(before, producer, node, producer', n, |before[n].outputs|)
    ensures forall v :: v in producer' && v !in before[n].outputs ==> v in producer && producer'[v] == producer[v]
    ensures forall v :: v in before[n].outputs ==> v in producer' && producer'[v] in node && producer'[v] !in before
  {
    assert before[n].outputs[..|before[n].outputs|] == before[n].outputs;
  }

  lemma FoldedKeepsInputs(before: map<NodeId, Node>, producer: map<ValueId, NodeId>, after: map<NodeId, Node>,
                          producer': map<ValueId, NodeId>, n: NodeId, results: seq<Data>)
    requires Folded(before, after, n, results) && NoStaleInputs(before, producer) && Written(before, producer, {})
    requires forall v :: v in producer' && v !in before[n].outputs ==> v in producer && producer'[v] == producer[v]
    requires forall v :: v in before[n].outputs ==> v in producer' && producer'[v] in after
    ensures NoStaleInputs(after, producer')
  {
    hide Has;
    forall m, v | m in after && v in after[m].inputs && v in producer' ensures producer'[v] in after {
      if m in before {
        assert v in before[m].inputs;
        if v !in before[n].outputs {
          assert producer[v] in before;
          assert v in before[producer[v]].outputs;
        }
      }
    }
  }

  /** The producers of the inputs, each once. */
  method ConstantNodes(node: map<NodeId, Node>, producer: map<ValueId, NodeId>, inputs: seq<ValueId>)
    returns (consts: seq<NodeId>)
    requires forall v :: v in inputs ==> IsConstant(node, producer, v)
    ensures Distinct(consts) && forall c :: c in consts ==> c in node && node[c].op.Constant?
    ensures forall v :: v in inputs ==> v in producer && producer[v] in consts
  {
    consts := [];
    var seen: set<ValueId> := {};
    var i := 0;
    while i < |inputs|
      invariant 0 <= i <= |inputs| && forall c :: c in consts ==> c in node && node[c].op.Constant?
      invariant Distinct(consts) && forall c :: c in consts ==> |node[c].outputs| == 1 && node[c].outputs[0] in seen
      invariant forall v :: v in inputs[..i] ==> v in seen
      invariant forall v :: v in seen ==> v in inputs && v in producer && producer[v] in consts
    {
      assert inputs[i] in inputs;
      if inputs[i] !in seen {
        seen := seen + {inputs[i]};
        consts := consts + [producer[inputs[i]]];
      }
      i := i + 1;
    }
    assert inputs[..i] == inputs;
  }

  /** Some attached node reads `v`. */
  ghost predicate IsRead(node: map<NodeId, Node>, v: ValueId) {
    exists m :: m in node && v in node[m].inputs
  }

  /** Without a constant the same values are read. */
  lemma SourceReadsNothing(node: map<NodeId, Node>, c: NodeId)
    requires c in node ==> node[c].inputs == []
    ensures forall v :: IsRead(node - {c}, v) <==> IsRead(node, v)
  {
    forall v ensures IsRead(node - {c}, v) <==> IsRead(node, v) {
      if m :| m in node && v in node[m].inputs { assert m in node - {c} && (node - {c})[m] == node[m]; }
    }
  }

  lemma ReadMeans(graph: Graph, v: ValueId)
    requires graph.Valid({})
    ensures graph.Users(v) == [] <==> !IsRead(graph.node, v)
  {
    hide Below, Written;
    var g := Snapshot(graph.node, graph.users, map[], {});
    assert g.Users(v) == graph.Users(v);
    forall m ensures m in g.Users(v) <==> m in graph.node && v in graph.node[m].inputs { UserReads(g, v, m); }
    if g.Users(v) != [] { assert g.Users(v)[0] in g.Users(v); }
  }

  /** Detaches the constant, unless somebody needs it. */
  method DropIfUnused(graph: Graph, c: NodeId, outputs: set<ValueId>, ghost kernels: Kernels)
    requires Sound(graph) && c in graph.node && graph.node[c].op.Constant?
    modifies graph`node, graph`users
    ensures Sound(graph) && Equivalent(kernels, old(graph.node), graph.node, outputs)
    ensures graph.node == old(graph.node) || graph.node == old(graph.node) - {c}
    ensures NonConstants(graph.node) == NonConstants(old(graph.node))
    ensures forall v :: IsRead(graph.node, v) <==> old(IsRead(graph.node, v))
    ensures c in graph.node <==>
      old(graph.node[c].outputs[0] in outputs || IsRead(graph.node, graph.node[c].outputs[0]))
  {
    hide DefUse, Written, Below, Equivalent, IsRead;
    EquivalentSelf(kernels, graph.node, outputs);
    SourceReadsNothing(graph.node, c);
    var v := graph.node[c].outputs[0];
    ReadMeans(graph, v);
    if graph.Users(v) == [] && v !in outputs {
      ConstantUnread(graph, c, v);
      DropIsEquivalent(kernels, graph.node, c, v, outputs);
      graph.Detach(c, {});
      assert {} - {c} == {};
    }
  }

  lemma ConstantUnread(graph: Graph, c: NodeId, v: ValueId)
    requires graph.Valid({}) && c in graph.node && graph.node[c].outputs == [v] && UsersOf(graph.users, v) == []
    ensures forall m :: m in graph.node && m != c ==> !Mentions(graph.node[m], v)
    ensures forall m, w :: m in graph.node && m != c && w in graph.node[m].inputs && w in graph.producer ==>
      graph.producer[w] != c
  {
    hide Below;
    var g := Snapshot(graph.node, graph.users, map[], {});
    OnlyWriter(graph, c, v);
    forall m | m in graph.node && m != c ensures !Mentions(graph.node[m], v) {
      UserReads(g, v, m);
    }
  }

  /** What is not folded: the number of values that the evaluator gives is wrong. */
  predicate Unfit(kernels: Kernels, node: map<NodeId, Node>, producer: map<ValueId, NodeId>, n: NodeId)
    requires n in node && HasConstantInputsOnly(node, producer, n)
  {
    |Evaluated(kernels, node[n], ConstantsOf(node, producer, node[n].inputs))| != |node[n].outputs|
  }

  /** DoConstantPropagation: false when the operator cannot be evaluated; nothing changes then. */
  method DoConstantPropagation(graph: Graph, n: NodeId, outputs: set<ValueId>, kernels: Kernels) returns (ok: bool)
    requires Sound(graph) && n in graph.node && HasConstantInputsOnly(graph.node, graph.producer, n)
    requires !graph.node[n].op.Constant?
    modifies graph
    ensures Sound(graph) && Equivalent(kernels, old(graph.node), graph.node, outputs)
    ensures ok <==> !old(Unfit(kernels, graph.node, graph.producer, n))
    ensures !ok ==> graph.node == old(graph.node) && graph.producer == old(graph.producer)
    ensures ok ==> NonConstants(graph.node) == NonConstants(old(graph.node)) - {n}
    ensures forall m :: m in old(graph.node) && m !in graph.node ==> m == n || old(graph.node)[m].op.Constant?
    ensures forall m :: m in old(graph.node) && m in graph.node ==> graph.node[m] == old(graph.node)[m]
    ensures OnlyNewer(old(graph.node), graph.node, old(graph.nextNode)) && old(graph.nextNode) <= graph.nextNode
    // Of the constants that fed the node those stay that are read or wanted outside.
    ensures ok ==> forall v :: v in old(graph.node[n].inputs) ==>
      (old(graph.producer[v]) in graph.node <==> v in outputs || IsRead(graph.node, v))
  {
    hide DefUse, Written, Below, Folded, Equivalent, NonConstants, Listed, NoStaleInputs, Apply, IsRead;
    var node := graph.node[n];
    ghost var before, nextNode := graph.node, graph.nextNode;
    var results := Evaluated(kernels, node, ConstantsOf(graph.node, graph.producer, node.inputs));
    if |results| != |node.outputs| {
      EquivalentSelf(kernels, graph.node, outputs);
      return false;
    }
    var consts := ConstantNodes(graph.node, graph.producer, node.inputs);
    ghost var producer := graph.producer;
    ReplaceByConstants(graph, n, results);
    FoldedIsEquivalent(kernels, before, producer, graph.node, n, results, outputs);
    FoldedNodes(before, graph.node, n, results);
    ghost var mid := graph.node;
    var i := 0;
    while i < |consts|
      modifies graph`node, graph`users
      invariant 0 <= i <= |consts| && Sound(graph) && Equivalent(kernels, before, graph.node, outputs)
      invariant NonConstants(graph.node) == NonConstants(before) - {n}
      invariant forall m :: m in before && m in graph.node ==> graph.node[m] == before[m]
      invariant forall m :: m in before && m !in graph.node ==> m == n || before[m].op.Constant?
      invariant OnlyNewer(before, graph.node, nextNode) && nextNode <= graph.nextNode
      invariant forall j :: i <= j < |consts| ==> consts[j] in graph.node && graph.node[consts[j]] == before[consts[j]]
      invariant forall v :: IsRead(graph.node, v) <==> IsRead(mid, v)
      invariant forall j :: 0 <= j < i ==> KeptIfWanted(before, graph.node, mid, consts[j], outputs)
    {
      ghost var node' := graph.node;
      assert consts[i] in consts;
      DropIfUnused(graph, consts[i], outputs, kernels);
      EquivalentTrans(kernels, before, node', graph.node, outputs);
      i := i + 1;
    }
    forall v | v in node.inputs ensures producer[v] in graph.node <==> v in outputs || IsRead(graph.node, v) {
      assert IsConstant(before, producer, v);
      assert KeptIfWanted(before, graph.node, mid, producer[v], outputs);
    }
    ok := true;
  }

  /** The constant is attached exactly if it is read or wanted outside. */
  ghost predicate KeptIfWanted(before: map<NodeId, Node>, after: map<NodeId, Node>, mid: map<NodeId, Node>, c: NodeId,
                               outputs: set<ValueId>) {
    c in before && before[c].outputs != [] &&
      (c in after <==> before[c].outputs[0] in outputs || IsRead(mid, before[c].outputs[0]))
  }

  lemma FoldedNodes(before: map<NodeId, Node>, after: map<NodeId, Node>, n: NodeId, results: seq<Data>)
    requires Folded(before, after, n, results)
    ensures forall m :: m in before && m in after ==> after[m] == before[m]
    ensures forall m :: m in before && m !in after ==> m == n
  {
    hide Has;
  }

  /** The operators that are evaluated at compile time; of those without a model, the ones listed in `others`. */
  predicate Foldable(op: Op, others: set<nat>) {
    match op
    case Add | ConcatFromSequence | Div | Identity | Mul | Neg | Reshape => true
    case SequenceConstruct | SequenceInsert | Shape | Sub => true
    case Other(code) => code in others
    case _ => false
  }

  /** An operator of those listed. */
  ghost predicate Evaluable(op: Op, others: set<nat>) {
    || op in {Add, ConcatFromSequence, Div, Identity, Mul, Neg, Reshape, SequenceConstruct, SequenceInsert, Shape, Sub}
    || (op.Other? && op.code in others)
  }

  /** The node will be folded: it has inputs, all constants, and one of these operators. */
  ghost predicate Folds(node: map<NodeId, Node>, producer: map<ValueId, NodeId>, n: NodeId, others: set<nat>)
    requires n in node
  {
    && node[n].inputs != [] && (forall v :: v in node[n].inputs ==> IsConstant(node, producer, v))
    && Evaluable(node[n].op, others)
  }

  lemma FoldsIs(node: map<NodeId, Node>, producer: map<ValueId, NodeId>, n: NodeId, others: set<nat>)
    requires n in node
    ensures Foldable(node[n].op, others) <==> Evaluable(node[n].op, others)
    ensures Folds(node, producer, n, others) <==>
      HasConstantInputsOnly(node, producer, n) && Foldable(node[n].op, others)
  {
    hide IsConstant;
  }

  ghost predicate Checked(node: map<NodeId, Node>, producer: map<ValueId, NodeId>, live: seq<NodeId>, i: nat,
                          others: set<nat>) {
    i <= |live| && forall j :: 0 <= j < i && live[j] in node ==> !Folds(node, producer, live[j], others)
  }

  /** No attached node that can be folded has all its inputs constant. */
  ghost predicate Finished(node: map<NodeId, Node>, producer: map<ValueId, NodeId>, others: set<nat>) {
    forall n :: n in node ==> !Folds(node, producer, n, others)
  }

  lemma AllChecked(node: map<NodeId, Node>, producer: map<ValueId, NodeId>, live: seq<NodeId>, others: set<nat>)
    requires Checked(node, producer, live, |live|, others) && SetOf(live) == node.Keys
    ensures Finished(node, producer, others)
  {
    forall n | n in node ensures !Folds(node, producer, n, others) {
      assert n in SetOf(live);
      var j :| 0 <= j < |live| && live[j] == n;
    }
  }

  /** A node that would be folded and that the evaluator fails on. */
  ghost predicate Stuck(kernels: Kernels, node: map<NodeId, Node>, producer: map<ValueId, NodeId>, others: set<nat>) {
    exists n :: n in node && Folds(node, producer, n, others) && Unfit(kernels, node, producer, n)
  }

  /** In a run the evaluator gives what the node writes. */
  lemma RunFits(kernels: Kernels, node: map<NodeId, Node>, producer: map<ValueId, NodeId>, n: NodeId, env: Env)
    requires n in node && HasConstantInputsOnly(node, producer, n) && Solves(kernels, node, env)
    ensures !Unfit(kernels, node, producer, n)
  {
    ConstantsMean(kernels, node, producer, env, node[n].inputs);
    assert Holds(kernels, node[n], env);
  }

  /** Such a graph has no run. */
  lemma StuckHasNoRun(kernels: Kernels, node: map<NodeId, Node>, producer: map<ValueId, NodeId>, others: set<nat>,
                      env: Env)
    requires Stuck(kernels, node, producer, others)
    ensures !Solves(kernels, node, env)
  {
    hide Solves, Unfit, IsConstant, Evaluable;
    var n :| n in node && Folds(node, producer, n, others) && Unfit(kernels, node, producer, n);
    if Solves(kernels, node, env) { RunFits(kernels, node, producer, n, env); }
  }

  /** The quotient of two constants, of which the second is zero, is such a graph. */
  lemma DivisionByZeroIsStuck(kernels: Kernels, node: map<NodeId, Node>, producer: map<ValueId, NodeId>,
                              others: set<nat>)
    requires node == map[0 := Node(Constant(Real(1.0)), [], [0]), 1 := Node(Constant(Real(0.0)), [], [1]),
                         2 := Node(Div, [0, 1], [2])]
    requires producer == map[0 := 0, 1 := 1, 2 := 2]
    ensures Stuck(kernels, node, producer, others)
  {
    assert IsConstant(node, producer, 0) && IsConstant(node, producer, 1);
    assert ConstantsOf(node, producer, [0, 1]) == [Real(1.0), Real(0.0)];
    assert Folds(node, producer, 2, others) && Unfit(kernels, node, producer, 2);
  }

  /** Nor had any graph it comes from. */
  lemma StuckFromNoRun(kernels: Kernels, before: map<NodeId, Node>, node: map<NodeId, Node>,
                       producer: map<ValueId, NodeId>, others: set<nat>, keep: set<ValueId>, env: Env)
    requires Equivalent(kernels, before, node, keep) && Stuck(kernels, node, producer, others)
    ensures !Solves(kernels, before, env)
  {
    hide Solves, Stuck;
    if Solves(kernels, before, env) {
      assert Continues(kernels, node, keep, env);
      var env': Env :| Solves(kernels, node, env') && Agree(keep, env, env');
      StuckHasNoRun(kernels, node, producer, others, env');
    }
  }

  lemma FinishedIsNotStuck(kernels: Kernels, node: map<NodeId, Node>, producer: map<ValueId, NodeId>, others: set<nat>)
    requires Finished(node, producer, others)
    ensures !Stuck(kernels, node, producer, others)
  {
  }

  /** Nodes that are gone were constants or have been folded; the others are as they were. */
  ghost predicate OnlyFolded(before: map<NodeId, Node>, after: map<NodeId, Node>, others: set<nat>) {
    && (forall m :: m in before && m !in after ==> before[m].op.Constant? || Evaluable(before[m].op, others))
    && (forall m :: m in before && m in after ==> after[m] == before[m])
  }

  /** One pass over the nodes that are live at its start.  A node of the snapshot that has been
      detached since was a constant, or is behind us. */
  method Pass(graph: Graph, outputs: set<ValueId>, kernels: Kernels, others: set<nat>)
    returns (ok: bool, replaced: bool)
    requires Sound(graph)
    modifies graph
    ensures Sound(graph) && Equivalent(kernels, old(graph.node), graph.node, outputs)
    ensures OnlyFolded(old(graph.node), graph.node, others)
    ensures !ok ==> Stuck(kernels, graph.node, graph.producer, others)
    ensures ok && replaced ==> NonConstants(graph.node) < NonConstants(old(graph.node))
    ensures ok && !replaced ==> graph.node == old(graph.node) && Finished(graph.node, graph.producer, others)
  {
    hide *;
    PassStarts(graph, others);
    var live := GetLiveNodes(graph);
    ghost var before := graph.node;
    EquivalentSelf(kernels, graph.node, outputs);
    NoneChecked(graph.node, graph.producer, live, others);
    ok, replaced := true, false;
    var i := 0;
    while i < |live|
      modifies graph
      invariant 0 <= i <= |live| && Sound(graph) && Equivalent(kernels, before, graph.node, outputs)
      invariant OnlyFolded(before, graph.node, others)
      invariant forall m :: m in before ==> m < graph.nextNode
      invariant if replaced then NonConstants(graph.node) < NonConstants(before) else
                  graph.node == before && Checked(graph.node, graph.producer, live, i, others)
    {
      var n := live[i];
      ghost var node, producer, nextNode := graph.node, graph.producer, graph.nextNode;
      if n in node { FoldsIs(node, producer, n, others); }
      if n in graph.node && HasConstantInputsOnly(graph.node, graph.producer, n) && Foldable(graph.node[n].op, others) {
        FoldableIsNoConstant(node[n].op, others);
        ok := DoConstantPropagation(graph, n, outputs, kernels);
        EquivalentTrans(kernels, before, node, graph.node, outputs);
        OnlyFoldedMore(before, node, graph.node, nextNode, n, others);
        if !ok {
          StuckHere(kernels, graph.node, graph.producer, n, others);
          return;
        }
        OneLess(node, n);
        replaced := true;
      } else if !replaced {
        OneChecked(node, producer, live, i, others);
      }
      i := i + 1;
    }
    if !replaced { AllChecked(graph.node, graph.producer, live, others); }
  }

  lemma OneLess(node: map<NodeId, Node>, n: NodeId)
    requires n in node && !node[n].op.Constant?
    ensures NonConstants(node) - {n} < NonConstants(node)
  {
    assert n in NonConstants(node);
  }

  lemma PassStarts(graph: Graph, others: set<nat>)
    requires Sound(graph)
    ensures Listed(graph) && OnlyFolded(graph.node, graph.node, others)
    ensures forall m :: m in graph.node ==> m < graph.nextNode
  {
  }

  lemma FoldableIsNoConstant(op: Op, others: set<nat>)
    requires Evaluable(op, others)
    ensures !op.Constant?
  {
  }

  lemma OnlyFoldedMore(before: map<NodeId, Node>, node: map<NodeId, Node>, after: map<NodeId, Node>, nextNode: nat,
                       n: NodeId, others: set<nat>)
    requires OnlyFolded(before, node, others) && n in node && Evaluable(node[n].op, others)
    requires OnlyNewer(node, after, nextNode) && forall m :: m in before ==> m < nextNode
    requires forall m :: m in node && m !in after ==> m == n || node[m].op.Constant?
    requires forall m :: m in node && m in after ==> after[m] == node[m]
    ensures OnlyFolded(before, after, others)
  {
    hide Evaluable;
  }

  lemma StuckHere(kernels: Kernels, node: map<NodeId, Node>, producer: map<ValueId, NodeId>, n: NodeId,
                  others: set<nat>)
    requires n in node && Folds(node, producer, n, others) && Unfit(kernels, node, producer, n)
    ensures Stuck(kernels, node, producer, others)
  {
    hide Unfit, Folds;
  }

  lemma NoneChecked(node: map<NodeId, Node>, producer: map<ValueId, NodeId>, live: seq<NodeId>, others: set<nat>)
    ensures Checked(node, producer, live, 0, others)
  {
  }

  lemma OneChecked(node: map<NodeId, Node>, producer: map<ValueId, NodeId>, live: seq<NodeId>, i: nat, others: set<nat>)
    requires Checked(node, producer, live, i, others) && i < |live|
    requires live[i] in node ==> !Folds(node, producer, live[i], others)
    ensures Checked(node, producer, live, i + 1, others)
  {
    hide Folds;
  }

  /** PropagateConstants: false exactly when an operator that could be folded cannot be
      evaluated; no graph with a run comes to that. */
  method PropagateConstants(graph: Graph, outputs: set<ValueId>, kernels: Kernels, others: set<nat>) returns (ok: bool)
    requires Sound(graph)
    modifies graph
    ensures Sound(graph) && Equivalent(kernels, old(graph.node), graph.node, outputs)
    ensures ok <==> !Stuck(kernels, graph.node, graph.producer, others)
    ensures ok <==> Finished(graph.node, graph.producer, others)
    ensures (exists env: Env :: Solves(kernels, old(graph.node), env)) ==> ok
  {
    hide Sound, Equivalent, Finished, NonConstants, Stuck, Solves;
    ghost var before := graph.node;
    EquivalentSelf(kernels, graph.node, outputs);
    ok := true;
    var replaced := true;
    while replaced
      modifies graph
      invariant Sound(graph) && Equivalent(kernels, before, graph.node, outputs)
      invariant !replaced ==> Finished(graph.node, graph.producer, others)
      decreases NonConstants(graph.node), replaced
    {
      ghost var node := graph.node;
      ok, replaced := Pass(graph, outputs, kernels, others);
      EquivalentTrans(kernels, before, node, graph.node, outputs);
      if !ok {
        if env: Env :| Solves(kernels, before, env) {
          StuckFromNoRun(kernels, before, graph.node, graph.producer, others, outputs, env);
        }
        if Finished(graph.node, graph.producer, others) {
          FinishedIsNotStuck(kernels, graph.node, graph.producer, others);
        }
        return;
      }
    }
    FinishedIsNotStuck(kernels, graph.node, graph.producer, others);
  }
}
