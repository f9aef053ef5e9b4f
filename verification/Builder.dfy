/** compiler/graph_builder.cc: adding nodes to a graph, and what a run says about an added node. */
module Builder {
  import opened Ir
  import opened GraphIr

  ghost predicate Has(node: map<NodeId, Node>, n: Node) {
    exists id :: id in node && node[id] == n
  }

  /** One graph has all the nodes of another. */
  ghost predicate Within(node: map<NodeId, Node>, more: map<NodeId, Node>) {
    forall n :: n in node ==> n in more && more[n] == node[n]
  }

  lemma HasIt(node: map<NodeId, Node>, id: NodeId)
    requires id in node
    ensures Has(node, node[id])
  {
  }

  lemma WithinItself(node: map<NodeId, Node>)
    ensures Within(node, node)
  {
  }

  /** `v` is written by an attached Constant node. */
  predicate IsConstant(node: map<NodeId, Node>, producer: map<ValueId, NodeId>, v: ValueId) {
    v in producer && producer[v] in node && node[producer[v]].op.Constant? && node[producer[v]].outputs == [v]
  }

  /** None of the values is written by a Constant node. */
  ghost predicate NoneConstant(node: map<NodeId, Node>, vs: set<ValueId>) {
    forall c :: c in node && node[c].op.Constant? && |node[c].outputs| == 1 ==> node[c].outputs[0] !in vs
  }

  ghost predicate AllIn(vs: seq<ValueId>, bound: nat) {
    forall i :: 0 <= i < |vs| ==> vs[i] < bound
  }

  ghost predicate NodesAdded(before: map<NodeId, Node>, after: map<NodeId, Node>, n: Node) {
    forall id :: id in after && id !in before ==> after[id] == n
  }

  /** Exactly one node has been added. */
  ghost predicate OneMore(before: map<NodeId, Node>, after: map<NodeId, Node>, n: Node) {
    exists id: NodeId :: id !in before && after == before[id := n]
  }

  /** Every attached node is in the list of nodes. */
  ghost predicate Listed(graph: Graph)
    reads graph`node, graph`nodes
  {
    forall n :: n in graph.node ==> n in graph.nodes
  }

  /** The attached ones of a list of nodes, in the order of the list. */
  function LiveOf(nodes: seq<NodeId>, node: map<NodeId, Node>): (live: seq<NodeId>)
    ensures forall n :: n in live <==> n in nodes && n in node
  {
    if nodes == [] then []
    else LiveOf(nodes[..|nodes| - 1], node) + if nodes[|nodes| - 1] in node then [nodes[|nodes| - 1]] else []
  }

  /** Graph::GetLiveNodes: the nodes that are not detached, in their order. */
  method GetLiveNodes(graph: Graph) returns (live: seq<NodeId>)
    requires Listed(graph)
    ensures SetOf(live) == graph.node.Keys && live == LiveOf(graph.nodes, graph.node)
  {
    live := [];
    var i := 0;
    while i < |graph.nodes|
      invariant 0 <= i <= |graph.nodes| && live == LiveOf(graph.nodes[..i], graph.node)
    {
      assert graph.nodes[..i + 1][..i] == graph.nodes[..i];
      if graph.nodes[i] in graph.node { live := live + [graph.nodes[i]]; }
      i := i + 1;
    }
    assert graph.nodes[..i] == graph.nodes;
  }

  lemma HasWithin(node: map<NodeId, Node>, more: map<NodeId, Node>, n: Node)
    requires Within(node, more) && Has(node, n)
    ensures Has(more, n)
  {
  }

  lemma WithinTrans(a: map<NodeId, Node>, b: map<NodeId, Node>, c: map<NodeId, Node>)
    requires Within(a, b) && Within(b, c)
    ensures Within(a, c)
  {
  }

  lemma SolvesWithin(kernels: Kernels, node: map<NodeId, Node>, more: map<NodeId, Node>, env: Env)
    requires Within(node, more) && Solves(kernels, more, env)
    ensures Solves(kernels, node, env)
  {
    forall n | n in node ensures Holds(kernels, node[n], env) { assert Holds(kernels, more[n], env); }
  }

  lemma HoldsAlike(kernels: Kernels, n: Node, env: Env, env': Env)
    requires Holds(kernels, n, env) && forall v :: v in n.inputs || v in n.outputs ==> env'(v) == env(v)
    ensures Holds(kernels, n, env')
  {
    assert Vals(env', n.inputs) == Vals(env, n.inputs) by {
      forall i | 0 <= i < |n.inputs| ensures env'(n.inputs[i]) == env(n.inputs[i]) { assert n.inputs[i] in n.inputs; }
    }
    assert Vals(env', n.outputs) == Vals(env, n.outputs) by {
      forall i | 0 <= i < |n.outputs|
        ensures env'(n.outputs[i]) == env(n.outputs[i])
      {
        assert n.outputs[i] in n.outputs;
      }
    }
  }

  lemma HasMeans(kernels: Kernels, node: map<NodeId, Node>, env: Env, n: Node)
    requires Solves(kernels, node, env) && Has(node, n)
    ensures Holds(kernels, n, env)
  {
  }

  lemma Nullary(kernels: Kernels, env: Env, op: Op, y: ValueId)
    requires Holds(kernels, Node(op, [], [y]), env)
    ensures [env(y)] == Apply(kernels, op, [])
  {
    assert Vals(env, []) == [] && Vals(env, [y]) == [env(y)];
  }

  lemma Unary(kernels: Kernels, env: Env, op: Op, a: ValueId, y: ValueId)
    requires Holds(kernels, Node(op, [a], [y]), env)
    ensures [env(y)] == Apply(kernels, op, [env(a)])
  {
    assert Vals(env, [a]) == [env(a)] && Vals(env, [y]) == [env(y)];
  }

  /** What a node with two operands computes. */
  lemma Binary(kernels: Kernels, env: Env, op: Op, a: ValueId, b: ValueId, y: ValueId)
    requires Holds(kernels, Node(op, [a, b], [y]), env)
    ensures [env(y)] == Apply(kernels, op, [env(a), env(b)])
  {
    assert Vals(env, [a, b]) == [env(a), env(b)] && Vals(env, [y]) == [env(y)];
  }

  /** A node that writes `v`, which nobody writes yet. */
  method EmitTo(graph: Graph, op: Op, inputs: seq<ValueId>, v: ValueId)
    requires graph.Valid({}) && BelowNode(Node(op, inputs, [v]), graph.nextValue) && v !in graph.producer
    modifies graph
    ensures graph.Valid({}) && graph.nextValue == old(graph.nextValue)
    ensures Within(old(graph.node), graph.node) && Has(graph.node, Node(op, inputs, [v]))
    ensures NodesAdded(old(graph.node), graph.node, Node(op, inputs, [v]))
    ensures graph.producer.Keys == old(graph.producer.Keys) + {v}
    ensures Listed(graph) || !old(Listed(graph))
  {
    hide DefUse, Written;
    var n := graph.AddNode(op, inputs, [v], {});
    assert graph.node[n] == Node(op, inputs, [v]);
  }

  /** GraphBuilder::Op with a new value. */
  method Emit(graph: Graph, op: Op, inputs: seq<ValueId>) returns (v: ValueId)
    requires graph.Valid({}) && forall i :: i in inputs ==> i < graph.nextValue
    modifies graph
    ensures graph.Valid({}) && v == old(graph.nextValue) && graph.nextValue == v + 1
    ensures Within(old(graph.node), graph.node) && Has(graph.node, Node(op, inputs, [v]))
    ensures NodesAdded(old(graph.node), graph.node, Node(op, inputs, [v]))
    ensures graph.producer.Keys == old(graph.producer.Keys) + {v}
    ensures Listed(graph) || !old(Listed(graph))
  {
    hide DefUse, Written;
    v := graph.AddValue({});
    EmitTo(graph, op, inputs, v);
  }
}
