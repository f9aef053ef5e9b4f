/** Rewrites of a graph that preserve what it computes. */
module Rewriting {
  import opened Ir
  import opened GraphIr
  import opened Builder

  /** Every run of `a` is matched by a run of `b` with the same values in `keep`. */
  ghost predicate Matched(kernels: Kernels, a: map<NodeId, Node>, b: map<NodeId, Node>, keep: set<ValueId>) {
    forall env: Env :: Solves(kernels, a, env) ==> Continues(kernels, b, keep, env)
  }

  ghost predicate Continues(kernels: Kernels, b: map<NodeId, Node>, keep: set<ValueId>, env: Env) {
    exists env': Env :: Solves(kernels, b, env') && Agree(keep, env, env')
  }

  /** Both graphs compute the same for `keep`. */
  ghost predicate Equivalent(kernels: Kernels, a: map<NodeId, Node>, b: map<NodeId, Node>, keep: set<ValueId>) {
    Matched(kernels, a, b, keep) && Matched(kernels, b, a, keep)
  }

  lemma EquivalentSelf(kernels: Kernels, a: map<NodeId, Node>, keep: set<ValueId>)
    ensures Equivalent(kernels, a, a, keep)
  {
    hide Solves;
    forall env: Env | Solves(kernels, a, env) ensures Continues(kernels, a, keep, env) {
      assert Agree(keep, env, env);
    }
  }

  lemma MatchedTrans(kernels: Kernels, a: map<NodeId, Node>, b: map<NodeId, Node>, c: map<NodeId, Node>,
                     keep: set<ValueId>)
    requires Matched(kernels, a, b, keep) && Matched(kernels, b, c, keep)
    ensures Matched(kernels, a, c, keep)
  {
    hide Solves, Agree;
    forall env: Env | Solves(kernels, a, env) ensures Continues(kernels, c, keep, env) {
      assert Continues(kernels, b, keep, env);
      var e: Env :| Solves(kernels, b, e) && Agree(keep, env, e);
      assert Continues(kernels, c, keep, e);
      var e': Env :| Solves(kernels, c, e') && Agree(keep, e, e');
      AgreeTrans(keep, env, e, e');
    }
  }

  lemma AgreeTrans(keep: set<ValueId>, a: Env, b: Env, c: Env)
    requires Agree(keep, a, b) && Agree(keep, b, c)
    ensures Agree(keep, a, c)
  {
  }

  lemma EquivalentTrans(kernels: Kernels, a: map<NodeId, Node>, b: map<NodeId, Node>, c: map<NodeId, Node>,
                        keep: set<ValueId>)
    requires Equivalent(kernels, a, b, keep) && Equivalent(kernels, b, c, keep)
    ensures Equivalent(kernels, a, c, keep)
  {
    hide Matched;
    MatchedTrans(kernels, a, b, c, keep);
    MatchedTrans(kernels, c, b, a, keep);
  }

  /** A node that does not mention the value does not see the change. */
  lemma HoldsWith(kernels: Kernels, n: Node, env: Env, v: ValueId, d: Data)
    requires !Mentions(n, v)
    ensures Holds(kernels, n, With(env, v, d)) <==> Holds(kernels, n, env)
  {
    hide Holds;
    if Holds(kernels, n, env) { HoldsAlike(kernels, n, env, With(env, v, d)); }
    if Holds(kernels, n, With(env, v, d)) { HoldsAlike(kernels, n, With(env, v, d), env); }
  }

  /** An attached node is the only writer of its outputs. */
  lemma OnlyWriter(graph: Graph, add: NodeId, v: ValueId)
    requires graph.Valid({}) && add in graph.node && v in graph.node[add].outputs
    ensures forall n :: n in graph.node && n != add ==> v !in graph.node[n].outputs
  {
    hide DefUse, Below;
  }

  // ---- cycles ----

  ghost predicate Acyclic(node: map<NodeId, Node>) {
    exists rank :: Ranked(node, rank)
  }

  lemma FewerNodesAcyclic(node: map<NodeId, Node>, less: map<NodeId, Node>)
    requires Acyclic(node) && forall n :: n in less ==> n in node && less[n] == node[n]
    ensures Acyclic(less)
  {
    var rank :| Ranked(node, rank);
    forall a, b | Feeds(less, a, b) ensures rank[a] < rank[b] {
      assert Feeds(node, a, b);
    }
    assert Ranked(less, rank);
  }

  // ---- runs are determined by what no node writes ----

  /** `keep` has every value that is read and that no node writes. */
  ghost predicate HasInputs(node: map<NodeId, Node>, keep: set<ValueId>) {
    forall n, v :: n in node && v in node[n].inputs && !WrittenIn(node, v) ==> v in keep
  }

  lemma {:induction false} RunIsDetermined(kernels: Kernels, node: map<NodeId, Node>, rank: map<NodeId, nat>,
                                           keep: set<ValueId>, a: Env, b: Env, n: NodeId)
    requires Ranked(node, rank) && HasInputs(node, keep) && Agree(keep, a, b)
    requires Solves(kernels, node, a) && Solves(kernels, node, b) && n in node
    ensures forall v :: v in node[n].outputs ==> a(v) == b(v)
    decreases rank[n]
  {
    forall i | 0 <= i < |node[n].inputs| ensures a(node[n].inputs[i]) == b(node[n].inputs[i]) {
      var v := node[n].inputs[i];
      assert v in node[n].inputs;
      if WrittenIn(node, v) {
        var m :| m in node && v in node[m].outputs;
        assert Feeds(node, m, n);
        RunIsDetermined(kernels, node, rank, keep, a, b, m);
      }
    }
    assert Vals(a, node[n].inputs) == Vals(b, node[n].inputs);
    assert Holds(kernels, node[n], a) && Holds(kernels, node[n], b);
    hide Apply;
    forall v | v in node[n].outputs ensures a(v) == b(v) {
      var k :| 0 <= k < |node[n].outputs| && node[n].outputs[k] == v;
      assert Vals(a, node[n].outputs)[k] == Vals(b, node[n].outputs)[k];
    }
  }

  // ---- sums ----

  lemma {:induction false} SumOfConcat(a: seq<Data>, b: seq<Data>)
    ensures SumOf(a + b) == SumOf(a) + SumOf(b) && IntSum(a + b) == IntSum(a) + IntSum(b)
    decreases |b|
  {
    if b == [] {
      assert a + b == a;
    } else {
      var init, last := b[..|b| - 1], b[|b| - 1];
      assert (a + b)[..|a + b| - 1] == a + init;
      SumOfConcat(a, init);
    }
  }

  lemma {:induction false} IntsSumToZero(a: seq<Data>)
    requires AllInts(a)
    ensures SumOf(a) == 0.0
  {
    if a != [] { IntsSumToZero(a[..|a| - 1]); }
  }

  lemma SumOfOne(d: Data)
    ensures SumOf([d]) == RealOf(d) && IntSum([d]) == if d.Int? then d.i else 0
  {
    assert [d][..0] == [];
  }

  /** A sum may be replaced by its summands. */
  lemma TotalSplice(a: seq<Data>, b: seq<Data>, c: seq<Data>)
    requires b != []
    ensures Total(a + [Total(b)] + c) == Total(a + b + c)
  {
    var t := Total(b);
    SumOfConcat(a, [t]);
    SumOfConcat(a + [t], c);
    SumOfConcat(a, b);
    SumOfConcat(a + b, c);
    SumOfOne(t);
    SpliceInts(a, [t], c);
    SpliceInts(a, b, c);
    if AllInts(b) { IntsSumToZero(b); }
    if |b| == 1 { assert [t] == b; }
    if a == [] && c == [] { assert a + [t] + c == [t] && a + b + c == b; }
  }

  lemma SpliceInts(a: seq<Data>, b: seq<Data>, c: seq<Data>)
    ensures AllInts(a + b + c) <==> AllInts(a) && AllInts(b) && AllInts(c)
  {
    var s := a + b + c;
    if AllInts(s) {
      assert forall i :: 0 <= i < |a| ==> a[i] == s[i];
      assert forall i :: 0 <= i < |b| ==> b[i] == s[|a| + i];
      assert forall i :: 0 <= i < |c| ==> c[i] == s[|a| + |b| + i];
    }
  }

  /** An Add or a Sum, with its operands. */
  ghost predicate Summing(n: Node) {
    |n.outputs| == 1 && ((n.op.Add? && |n.inputs| == 2) || (n.op.Sum? && n.inputs != []))
  }

  lemma SummingHolds(kernels: Kernels, n: Node, env: Env)
    requires Summing(n)
    ensures Holds(kernels, n, env) <==> env(n.outputs[0]) == Total(Vals(env, n.inputs))
  {
    var args := Vals(env, n.inputs);
    assert Vals(env, n.outputs) == [env(n.outputs[0])];
    if n.op.Add? {
      assert args == [args[0]] + [args[1]];
      SumOfConcat([args[0]], [args[1]]);
      SumOfOne(args[0]);
      SumOfOne(args[1]);
    }
  }
}
