/** compiler/merge.cc: MaybeMergeAddToSum and the fixpoint loop of MergeOperations. */
module MergeSum {
  import opened Ir
  import opened GraphIr
  import opened Builder
  import opened Rewriting

  /** Inputs of the merged node: the summands take the place of their sum. */
  ghost function Spliced(inputs: seq<ValueId>, k: nat, summands: seq<ValueId>): seq<ValueId>
    requires k < |inputs|
  {
    inputs[..k] + summands + inputs[k + 1..]
  }

  /** `v` is read by node `out` alone, once, at position `k`, and written by `add` alone. */
  ghost predicate Between(node: map<NodeId, Node>, add: NodeId, out: NodeId, k: nat, v: ValueId) {
    && add in node && out in node && add != out
    && node[add].outputs == [v] && k < |node[out].inputs| && node[out].inputs[k] == v
    && (forall i :: 0 <= i < |node[out].inputs| && node[out].inputs[i] == v ==> i == k)
    && (forall n :: n in node && n != out ==> v !in node[n].inputs)
    && (forall n :: n in node && n != add ==> v !in node[n].outputs)
  }

  ghost function Merged(node: map<NodeId, Node>, add: NodeId, out: NodeId, k: nat): Node
    requires add in node && out in node && k < |node[out].inputs|
  {
    Node(Sum, Spliced(node[out].inputs, k, node[add].inputs), node[out].outputs)
  }

  ghost function AfterMerge(node: map<NodeId, Node>, add: NodeId, out: NodeId, k: nat, sum: NodeId): map<NodeId, Node>
    requires add in node && out in node && k < |node[out].inputs|
  {
    node[sum := Merged(node, add, out, k)] - {add, out}
  }

  lemma SplicedVals(env: Env, inputs: seq<ValueId>, k: nat, summands: seq<ValueId>)
    requires k < |inputs|
    ensures Vals(env, Spliced(inputs, k, summands)) ==
      Vals(env, inputs[..k]) + Vals(env, summands) + Vals(env, inputs[k + 1..])
    ensures Vals(env, inputs) == Vals(env, inputs[..k]) + [env(inputs[k])] + Vals(env, inputs[k + 1..])
  {
  }

  /** The merged node holds where both nodes hold. */
  lemma MergedHolds(kernels: Kernels, node: map<NodeId, Node>, add: NodeId, out: NodeId, k: nat, v: ValueId, env: Env)
    requires Between(node, add, out, k, v) && Summing(node[add]) && Summing(node[out])
    requires env(v) == Total(Vals(env, node[add].inputs))
    ensures Holds(kernels, Merged(node, add, out, k), env) <==> Holds(kernels, node[out], env)
  {
    hide Total, Holds;
    var a, o := node[add], node[out];
    SummingHolds(kernels, o, env);
    SummingHolds(kernels, Merged(node, add, out, k), env);
    SplicedVals(env, o.inputs, k, a.inputs);
    TotalSplice(Vals(env, o.inputs[..k]), Vals(env, a.inputs), Vals(env, o.inputs[k + 1..]));
  }

  lemma MergeMatches(kernels: Kernels, node: map<NodeId, Node>, add: NodeId, out: NodeId, k: nat, sum: NodeId,
                     v: ValueId, keep: set<ValueId>)
    requires Between(node, add, out, k, v) && Summing(node[add]) && Summing(node[out]) && sum !in node
    ensures Matched(kernels, node, AfterMerge(node, add, out, k, sum), keep)
  {
    hide Holds, Merged, Summing;
    var after := AfterMerge(node, add, out, k, sum);
    forall env: Env | Solves(kernels, node, env) ensures Continues(kernels, after, keep, env) {
      assert Holds(kernels, node[add], env) && Holds(kernels, node[out], env);
      SummingHolds(kernels, node[add], env);
      MergedHolds(kernels, node, add, out, k, v, env);
      assert Solves(kernels, after, env) && Agree(keep, env, env);
    }
  }

  lemma MergeMatchesBack(kernels: Kernels, node: map<NodeId, Node>, add: NodeId, out: NodeId, k: nat, sum: NodeId,
                         v: ValueId, keep: set<ValueId>)
    requires Between(node, add, out, k, v) && Summing(node[add]) && Summing(node[out]) && sum !in node && v !in keep
    ensures Matched(kernels, AfterMerge(node, add, out, k, sum), node, keep)
  {
    hide Solves;
    var after := AfterMerge(node, add, out, k, sum);
    forall env': Env | Solves(kernels, after, env') ensures Continues(kernels, node, keep, env') {
      var env := With(env', v, Total(Vals(env', node[add].inputs)));
      MergeUndone(kernels, node, add, out, k, sum, v, env');
      assert Agree(keep, env', env);
    }
  }

  lemma MergeUndone(kernels: Kernels, node: map<NodeId, Node>, add: NodeId, out: NodeId, k: nat, sum: NodeId,
                    v: ValueId, env': Env)
    requires Between(node, add, out, k, v) && Summing(node[add]) && Summing(node[out]) && sum !in node
    requires Solves(kernels, AfterMerge(node, add, out, k, sum), env')
    ensures Solves(kernels, node, With(env', v, Total(Vals(env', node[add].inputs))))
  {
    hide Holds, Total;
    var after := AfterMerge(node, add, out, k, sum);
    var d := Total(Vals(env', node[add].inputs));
    var env := With(env', v, d);
    SameVals(env', env, v, node[add].inputs);
    SummingHolds(kernels, node[add], env);
    MergedUnmentioned(node, add, out, k, v);
    assert after[sum] == Merged(node, add, out, k);
    HoldsWith(kernels, Merged(node, add, out, k), env', v, d);
    MergedHolds(kernels, node, add, out, k, v, env);
    forall n | n in node ensures Holds(kernels, node[n], env) {
      if n != add && n != out {
        assert after[n] == node[n];
        HoldsWith(kernels, node[n], env', v, d);
      }
    }
  }

  lemma SameVals(a: Env, b: Env, v: ValueId, vs: seq<ValueId>)
    requires v !in vs && forall w: ValueId :: w != v ==> b(w) == a(w)
    ensures Vals(b, vs) == Vals(a, vs)
  {
  }

  lemma MergedUnmentioned(node: map<NodeId, Node>, add: NodeId, out: NodeId, k: nat, v: ValueId)
    requires Between(node, add, out, k, v)
    ensures !Mentions(Merged(node, add, out, k), v)
  {
    var inputs := node[out].inputs;
    var before, after := inputs[..k], inputs[k + 1..];
    assert forall i :: 0 <= i < |before| ==> before[i] == inputs[i];
    assert forall i :: 0 <= i < |after| ==> after[i] == inputs[k + 1 + i];
  }

  /** Merging preserves every value but the intermediate one. */
  lemma MergeIsEquivalent(kernels: Kernels, node: map<NodeId, Node>, add: NodeId, out: NodeId, k: nat, sum: NodeId,
                          v: ValueId, keep: set<ValueId>)
    requires Between(node, add, out, k, v) && Summing(node[add]) && Summing(node[out]) && sum !in node && v !in keep
    ensures Equivalent(kernels, node, AfterMerge(node, add, out, k, sum), keep)
  {
    hide Matched;
    MergeMatches(kernels, node, add, out, k, sum, v, keep);
    MergeMatchesBack(kernels, node, add, out, k, sum, v, keep);
  }

  /** Merging closes no cycle. */
  lemma MergeIsAcyclic(node: map<NodeId, Node>, add: NodeId, out: NodeId, k: nat, sum: NodeId, v: ValueId)
    requires Between(node, add, out, k, v) && Acyclic(node) && sum !in node
    ensures Acyclic(AfterMerge(node, add, out, k, sum))
  {
    var after := AfterMerge(node, add, out, k, sum);
    var rank :| Ranked(node, rank);
    assert v in node[add].outputs && v in node[out].inputs;
    assert Feeds(node, add, out);
    var more := rank[sum := rank[out]];
    forall a, b | Feeds(after, a, b) ensures more[a] < more[b] {
      var w :| w in after[a].outputs && w in after[b].inputs;
      MergedReads(node, add, out, k, w);
      var a' := if a == sum then out else a;
      if b == sum {
        assert Feeds(node, a', out) || Feeds(node, a', add);
      } else {
        assert Feeds(node, a', b);
      }
    }
    assert Ranked(after, more);
  }

  lemma MergedReads(node: map<NodeId, Node>, add: NodeId, out: NodeId, k: nat, w: ValueId)
    requires add in node && out in node && k < |node[out].inputs|
    ensures w in Merged(node, add, out, k).inputs ==> w in node[out].inputs || w in node[add].inputs
  {
    var inputs := node[out].inputs;
    var before, after := inputs[..k], inputs[k + 1..];
    assert forall i :: 0 <= i < |before| ==> before[i] == inputs[i];
    assert forall i :: 0 <= i < |after| ==> after[i] == inputs[k + 1 + i];
  }

  // ---- the merger ----

  ghost predicate IsSum(n: Node) {
    n.op.Add? || n.op.Sum?
  }

  lemma IsSumMeans(n: Node)
    ensures IsSum(n) <==> n.op.Add? || n.op.Sum?
  {
  }

  /** Every Add and Sum has operands and one output. */
  ghost predicate WellFormed(node: map<NodeId, Node>) {
    forall n :: n in node && IsSum(node[n]) ==> Summing(node[n])
  }

  /** Its sum is used once, by another sum. */
  ghost predicate Mergeable(node: map<NodeId, Node>, users: map<ValueId, seq<NodeId>>, n: NodeId)
    requires n in node && node[n].outputs != []
  {
    var us := UsersOf(users, node[n].outputs[0]);
    |us| == 1 && us[0] in node && IsSum(node[us[0]])
  }

  /** `v` is the sum of `a` and read by `o` alone, once, which is a sum as well. */
  ghost predicate Merges(node: map<NodeId, Node>, a: NodeId, o: NodeId, v: ValueId) {
    && a in node && IsSum(node[a]) && node[a].outputs == [v] && o in node && IsSum(node[o])
    && multiset(node[o].inputs)[v] == 1 && forall n :: n in node && n != o ==> v !in node[n].inputs
  }

  ghost predicate MergeableValue(node: map<NodeId, Node>, v: ValueId) {
    exists a, o :: Merges(node, a, o, v)
  }

  lemma MergeableIs(node: map<NodeId, Node>, users: map<ValueId, seq<NodeId>>, a: NodeId, o: NodeId, v: ValueId)
    requires DefUse(node, users) && Merges(node, a, o, v)
    ensures Mergeable(node, users, a)
  {
    var g := Snapshot(node, users, map[], {});
    var us := g.Users(v);
    assert multiset(us)[o] == g.Reads(o, v);
    forall n | n != o ensures multiset(us)[n] == 0 {
      assert multiset(us)[n] == g.Reads(n, v);
    }
    assert multiset(us) == multiset{o};
    assert |multiset(us)| == |us|;
    assert us[0] in multiset(us);
  }

  /** Merging one value leaves the other mergeable values mergeable. */
  lemma MergeableAfter(node: map<NodeId, Node>, add: NodeId, out: NodeId, k: nat, sum: NodeId, v: ValueId, w: ValueId)
    requires Between(node, add, out, k, v) && WellFormed(node) && IsSum(node[add]) && IsSum(node[out]) && sum !in node
    ensures MergeableValue(AfterMerge(node, add, out, k, sum), w) <==> MergeableValue(node, w) && w != v
  {
    hide Summing, Merged, AfterMerge;
    if MergeableValue(node, w) && w != v {
      var a, o :| Merges(node, a, o, w);
      MergesLater(node, add, out, k, sum, v, w, a, o);
    }
    if MergeableValue(AfterMerge(node, add, out, k, sum), w) {
      var a, o :| Merges(AfterMerge(node, add, out, k, sum), a, o, w);
      MergesEarlier(node, add, out, k, sum, v, w, a, o);
    }
  }

  lemma MergedReadsAll(node: map<NodeId, Node>, add: NodeId, out: NodeId, k: nat, v: ValueId, w: ValueId)
    requires Between(node, add, out, k, v) && w != v
    ensures multiset(Merged(node, add, out, k).inputs)[w] ==
      multiset(node[out].inputs)[w] + multiset(node[add].inputs)[w]
  {
    var inputs := node[out].inputs;
    assert inputs == inputs[..k] + [v] + inputs[k + 1..];
  }

  lemma AfterMergeNodes(node: map<NodeId, Node>, add: NodeId, out: NodeId, k: nat, sum: NodeId, v: ValueId)
    requires Between(node, add, out, k, v) && sum !in node
    ensures
      var after := AfterMerge(node, add, out, k, sum);
      && after.Keys == node.Keys - {add, out} + {sum} && after[sum] == Merged(node, add, out, k)
      && (forall n :: n in node && n != add && n != out ==> after[n] == node[n])
      && add in node && out in node && add != out && node[add].outputs == [v]
  {
    hide Merged;
  }

  lemma MergedParts(node: map<NodeId, Node>, add: NodeId, out: NodeId, k: nat)
    requires add in node && out in node && k < |node[out].inputs|
    ensures Merged(node, add, out, k).op == Sum && Merged(node, add, out, k).outputs == node[out].outputs
  {
  }

  lemma MergesLater(node: map<NodeId, Node>, add: NodeId, out: NodeId, k: nat, sum: NodeId, v: ValueId, w: ValueId,
                    a: NodeId, o: NodeId)
    requires Between(node, add, out, k, v) && IsSum(node[add]) && IsSum(node[out]) && sum !in node
    requires Merges(node, a, o, w) && w != v
    ensures MergeableValue(AfterMerge(node, add, out, k, sum), w)
  {
    AfterMergeNodes(node, add, out, k, sum, v);
    MergedParts(node, add, out, k);
    MergedReadsAll(node, add, out, k, v, w);
    hide AfterMerge, Merged, Between;
    var after := AfterMerge(node, add, out, k, sum);
    var a', o' := if a == out then sum else a, if o == add || o == out then sum else o;
    assert Merges(after, a', o', w);
  }

  lemma MergesEarlier(node: map<NodeId, Node>, add: NodeId, out: NodeId, k: nat, sum: NodeId, v: ValueId, w: ValueId,
                      a: NodeId, o: NodeId)
    requires Between(node, add, out, k, v) && IsSum(node[add]) && IsSum(node[out]) && sum !in node
    requires Merges(AfterMerge(node, add, out, k, sum), a, o, w)
    ensures w != v && MergeableValue(node, w)
  {
    AfterMergeNodes(node, add, out, k, sum, v);
    MergedParts(node, add, out, k);
    MergedVanishes(node, add, out, k, sum, v);
    assert w != v;
    MergedReadsAll(node, add, out, k, v, w);
    hide AfterMerge, Merged, Between, Gone;
    var after := AfterMerge(node, add, out, k, sum);
    var a' := if a == sum then out else a;
    var o' := if o != sum then o else if w in node[out].inputs then out else add;
    assert w in after[sum].inputs <==> w in node[out].inputs || w in node[add].inputs;
    assert Merges(node, a', o', w);
  }

  /** What a single use means for the nodes. */
  lemma SingleUse(graph: Graph, add: NodeId, out: NodeId)
    requires graph.Valid({}) && Acyclic(graph.node) && add in graph.node && |graph.node[add].outputs| == 1
    requires UsersOf(graph.users, graph.node[add].outputs[0]) == [out]
    ensures var v := graph.node[add].outputs[0];
      && out in graph.node && v in graph.node[out].inputs
      && Between(graph.node, add, out, IndexOf(graph.node[out].inputs, v), v)
  {
    hide IndexOf, Below;
    var node, v := graph.node, graph.node[add].outputs[0];
    ReadsOf(node, graph.users, v, out);
    OnlyWriter(graph, add, v);
    var k := IndexOf(node[out].inputs, v);
    OneOccurrence(node[out].inputs, v, k);
    if add == out {
      assert v in node[add].outputs && v in node[add].inputs;
      NoSelfLoop(node, add);
      assert false;
    }
  }

  lemma NoSelfLoop(node: map<NodeId, Node>, n: NodeId)
    requires Acyclic(node)
    ensures !Feeds(node, n, n)
  {
  }

  lemma ReadsOf(node: map<NodeId, Node>, users: map<ValueId, seq<NodeId>>, v: ValueId, out: NodeId)
    requires DefUse(node, users) && UsersOf(users, v) == [out]
    ensures out in node && multiset(node[out].inputs)[v] == 1
    ensures forall n :: n in node && n != out ==> v !in node[n].inputs
  {
    var g := Snapshot(node, users, map[], {});
    assert multiset(g.Users(v))[out] == g.Reads(out, v);
    forall n | n in node && n != out ensures v !in node[n].inputs {
      assert multiset(g.Users(v))[n] == g.Reads(n, v);
    }
  }

  lemma OneOccurrence(s: seq<ValueId>, v: ValueId, k: nat)
    requires multiset(s)[v] == 1 && k < |s| && s[k] == v
    ensures forall i :: 0 <= i < |s| && s[i] == v ==> i == k
  {
    forall i | 0 <= i < |s| && i != k ensures s[i] != v {
      var low, high := if i < k then i else k, if i < k then k else i;
      assert s == s[..low] + [s[low]] + s[low + 1..high] + [s[high]] + s[high + 1..];
    }
  }

  /** MaybeMergeAddToSum. */
  method MaybeMergeAddToSum(graph: Graph, add: NodeId) returns (merged: bool, ghost v: ValueId)
    requires graph.Valid({}) && Listed(graph) && WellFormed(graph.node) && Acyclic(graph.node)
    requires add in graph.node && IsSum(graph.node[add])
    modifies graph
    ensures graph.Valid({}) && Listed(graph) && WellFormed(graph.node) && Acyclic(graph.node)
    ensures merged <==> old(Mergeable(graph.node, graph.users, add))
    ensures !merged ==> graph.node == old(graph.node) && graph.users == old(graph.users)
    ensures merged ==> v == old(graph.node)[add].outputs[0] && |graph.node| == |old(graph.node)| - 1
    ensures merged ==>
      forall kernels: Kernels, keep: set<ValueId> :: v !in keep ==>
        Equivalent(kernels, old(graph.node), graph.node, keep)
    ensures merged ==> Vanishes(old(graph.node), graph.node, v)
  {
    hide Summing, IndexOf, Mentions, Between, Merged, AfterMerge, Equivalent, DefUse, Written, Below, Vanishes, Listed,
      Acyclic;
    merged, v := false, 0;
    ghost var before := graph.node;
    SumShape(graph.node, add);
    var o := graph.node[add].outputs[0];
    var users := graph.Users(o);
    if |users| != 1 { return; }
    var out := users[0];
    assert users == [out];
    SingleUse(graph, add, out);
    if !graph.node[out].op.Add? && !graph.node[out].op.Sum? { return; }
    v := o;
    var k := IndexOf(graph.node[out].inputs, o);
    ghost var sum := graph.nextNode;
    ReplaceBySum(graph, add, out, k, o);
    MergedForm(before, add, out, k, sum, o);
    forall kernels: Kernels, keep: set<ValueId> | v !in keep ensures Equivalent(kernels, before, graph.node, keep) {
      MergeIsEquivalent(kernels, before, add, out, k, sum, v, keep);
    }
    MergeIsAcyclic(before, add, out, k, sum, v);
    merged := true;
  }

  lemma SumShape(node: map<NodeId, Node>, n: NodeId)
    requires WellFormed(node) && n in node && IsSum(node[n])
    ensures |node[n].outputs| == 1 && Summing(node[n])
  {
  }

  /** Add the merged node, detach the two others. */
  method ReplaceBySum(graph: Graph, add: NodeId, out: NodeId, k: nat, ghost v: ValueId)
    requires graph.Valid({}) && Listed(graph) && Between(graph.node, add, out, k, v)
    modifies graph
    ensures graph.Valid({}) && Listed(graph) && old(graph.nextNode) !in old(graph.node)
    ensures graph.node == AfterMerge(old(graph.node), add, out, k, old(graph.nextNode))
  {
    hide DefUse, Summing, Mentions;
    var n, a := graph.node[out], graph.node[add];
    SplicedBelow(n.inputs, k, a.inputs, graph.nextValue);
    DyingIsValid(graph, out);
    assert Spliced(n.inputs, k, a.inputs) == n.inputs[..k] + a.inputs + n.inputs[k + 1..];
    hide Written, Below, Spliced;
    var sum := graph.AddNode(Sum, n.inputs[..k] + a.inputs + n.inputs[k + 1..], n.outputs, {out});
    graph.Detach(add, {out});
    assert {out} - {add} == {out};
    graph.Detach(out, {out});
    assert {out} - {out} == {};
  }

  lemma DyingIsValid(graph: Graph, out: NodeId)
    requires graph.Valid({}) && out in graph.node
    ensures graph.Valid({out}) && Distinct(graph.node[out].outputs) && BelowNode(graph.node[out], graph.nextValue)
    ensures forall v :: v in graph.node[out].outputs ==> Free(graph.node, graph.producer, {out}, v)
  {
    hide DefUse;
  }

  lemma SplicedBelow(inputs: seq<ValueId>, k: nat, summands: seq<ValueId>, bound: nat)
    requires k < |inputs| && (forall v :: v in inputs ==> v < bound) && forall v :: v in summands ==> v < bound
    ensures forall v :: v in Spliced(inputs, k, summands) ==> v < bound
  {
    var before, after := inputs[..k], inputs[k + 1..];
    assert forall i :: 0 <= i < |before| ==> before[i] in inputs;
    assert forall i :: 0 <= i < |after| ==> after[i] in inputs;
  }

  /** The graph after a merge has one node less, its sums are well formed, and it mentions no new value. */
  lemma MergedForm(node: map<NodeId, Node>, add: NodeId, out: NodeId, k: nat, sum: NodeId, v: ValueId)
    requires Between(node, add, out, k, v) && WellFormed(node) && IsSum(node[add]) && IsSum(node[out]) && sum !in node
    ensures WellFormed(AfterMerge(node, add, out, k, sum)) && |AfterMerge(node, add, out, k, sum)| == |node| - 1
    ensures Vanishes(node, AfterMerge(node, add, out, k, sum), v)
  {
    var after := AfterMerge(node, add, out, k, sum);
    assert after.Keys == (node.Keys - {add, out}) + {sum};
    assert |node.Keys - {add, out}| == |node| - 2;
    VanishesNow(node, add, out, k, sum, v);
  }

  lemma VanishesNow(node: map<NodeId, Node>, add: NodeId, out: NodeId, k: nat, sum: NodeId, v: ValueId)
    requires Between(node, add, out, k, v) && WellFormed(node) && IsSum(node[add]) && IsSum(node[out]) && sum !in node
    ensures Vanishes(node, AfterMerge(node, add, out, k, sum), v)
  {
    hide MergeableValue, AfterMerge, Merged, Summing, Gone;
    var after := AfterMerge(node, add, out, k, sum);
    MergedVanishes(node, add, out, k, sum, v);
    MergesNow(node, add, out, k, v);
    forall w: ValueId ensures MergeableValue(after, w) <==> MergeableValue(node, w) && w != v {
      MergeableAfter(node, add, out, k, sum, v, w);
    }
    forall w: ValueId | Gone(node, w) ensures Gone(after, w) {
      StaysGone(node, add, out, k, sum, v, w);
    }
  }

  lemma MergesNow(node: map<NodeId, Node>, add: NodeId, out: NodeId, k: nat, v: ValueId)
    requires Between(node, add, out, k, v) && IsSum(node[add]) && IsSum(node[out])
    ensures MergeableValue(node, v)
  {
    var inputs := node[out].inputs;
    var before, after := inputs[..k], inputs[k + 1..];
    assert inputs == before + [v] + after;
    assert forall i :: 0 <= i < |before| ==> before[i] == inputs[i];
    assert forall i :: 0 <= i < |after| ==> after[i] == inputs[k + 1 + i];
    assert v !in before && v !in after;
    assert Merges(node, add, out, v);
  }

  lemma StaysGone(node: map<NodeId, Node>, add: NodeId, out: NodeId, k: nat, sum: NodeId, v: ValueId, w: ValueId)
    requires Between(node, add, out, k, v) && sum !in node && Gone(node, w)
    ensures Gone(AfterMerge(node, add, out, k, sum), w)
  {
    MergedReads(node, add, out, k, w);
    assert !Mentions(node[add], w) && !Mentions(node[out], w);
  }

  /** `v` is gone, nothing that was gone has come back, and what else could be merged still can. */
  ghost predicate Vanishes(before: map<NodeId, Node>, after: map<NodeId, Node>, v: ValueId) {
    && Gone(after, v) && (forall w: ValueId :: Gone(before, w) ==> Gone(after, w))
    && MergeableValue(before, v)
    && (forall w: ValueId :: MergeableValue(after, w) <==> MergeableValue(before, w) && w != v)
  }

  // ---- the fixpoint loop ----

  /** What every merge keeps. */
  ghost predicate Sound(graph: Graph)
    reads graph
  {
    graph.Valid({}) && Listed(graph) && WellFormed(graph.node) && Acyclic(graph.node)
  }

  /** The same for all values but the merged ones, which are gone. */
  ghost predicate MergedInto(before: map<NodeId, Node>, after: map<NodeId, Node>, merged: set<ValueId>) {
    && (forall kernels: Kernels, keep: set<ValueId> :: keep !! merged ==> Equivalent(kernels, before, after, keep))
    && (forall v :: v in merged ==> Gone(after, v) && MergeableValue(before, v))
    && (forall w: ValueId :: Gone(before, w) ==> Gone(after, w))
    && (forall w: ValueId :: MergeableValue(after, w) <==> MergeableValue(before, w) && w !in merged)
  }

  lemma MergedIntoSelf(node: map<NodeId, Node>)
    ensures MergedInto(node, node, {})
  {
    hide Equivalent, MergeableValue;
    forall kernels: Kernels, keep: set<ValueId> ensures Equivalent(kernels, node, node, keep) {
      EquivalentSelf(kernels, node, keep);
    }
  }

  lemma MergedIntoMore(first: map<NodeId, Node>, before: map<NodeId, Node>, after: map<NodeId, Node>,
                       merged: set<ValueId>, v: ValueId)
    requires MergedInto(first, before, merged)
    requires forall kernels: Kernels, keep: set<ValueId> :: v !in keep ==> Equivalent(kernels, before, after, keep)
    requires Vanishes(before, after, v)
    ensures MergedInto(first, after, merged + {v})
  {
    hide Equivalent, Gone, MergeableValue;
    forall kernels: Kernels, keep: set<ValueId> | keep !! merged + {v} ensures Equivalent(kernels, first, after, keep) {
      EquivalentTrans(kernels, first, before, after, keep);
    }
  }

  /** No sum of `live` up to `i` can be merged. */
  ghost predicate Checked(node: map<NodeId, Node>, users: map<ValueId, seq<NodeId>>, live: seq<NodeId>, i: nat) {
    i <= |live| && forall j :: 0 <= j < i && live[j] in node && IsSum(node[live[j]]) ==>
      node[live[j]].outputs != [] && !Mergeable(node, users, live[j])
  }

  /** One pass over the nodes that are live at its start. */
  method Pass(graph: Graph) returns (replaced: bool, ghost merged: set<ValueId>)
    requires Sound(graph)
    modifies graph
    ensures Sound(graph) && MergedInto(old(graph.node), graph.node, merged)
    ensures replaced ==> |graph.node| < |old(graph.node)|
    ensures !replaced ==> graph.node == old(graph.node) && graph.users == old(graph.users) && merged == {}
    ensures !replaced ==> Finished(graph.node, graph.users)
  {
    hide *;
    SoundMeans(graph);
    var live := GetLiveNodes(graph);
    replaced, merged := false, {};
    MergedIntoSelf(graph.node);
    NoneChecked(graph.node, graph.users, live);
    var i := 0;
    while i < |live|
      modifies graph
      invariant 0 <= i <= |live| && Sound(graph) && MergedInto(old(graph.node), graph.node, merged)
      invariant if replaced then |graph.node| < |old(graph.node)| else
                  graph.node == old(graph.node) && graph.users == old(graph.users) && merged == {}
                  && Checked(graph.node, graph.users, live, i)
    {
      SoundMeans(graph);
      ghost var before := graph.node;
      if live[i] in graph.node { IsSumMeans(graph.node[live[i]]); }
      if live[i] in graph.node && (graph.node[live[i]].op.Add? || graph.node[live[i]].op.Sum?) {
        SumShape(graph.node, live[i]);
        var happened;
        ghost var v;
        happened, v := MaybeMergeAddToSum(graph, live[i]);
        if happened {
          MergedIntoMore(old(graph.node), before, graph.node, merged, v);
          merged := merged + {v};
          replaced := true;
        }
        SoundMeans(graph);
      }
      if !replaced { OneChecked(graph.node, graph.users, live, i); }
      i := i + 1;
    }
    if !replaced { AllChecked(graph.node, graph.users, live); }
  }

  /** No Add or Sum that is used once feeds an Add or Sum. */
  ghost predicate Finished(node: map<NodeId, Node>, users: map<ValueId, seq<NodeId>>) {
    forall n :: n in node && IsSum(node[n]) ==> node[n].outputs != [] && !Mergeable(node, users, n)
  }

  lemma SoundMeans(graph: Graph)
    ensures Sound(graph) <==> graph.Valid({}) && Listed(graph) && WellFormed(graph.node) && Acyclic(graph.node)
  {
  }

  lemma NoneChecked(node: map<NodeId, Node>, users: map<ValueId, seq<NodeId>>, live: seq<NodeId>)
    ensures Checked(node, users, live, 0)
  {
  }

  lemma OneChecked(node: map<NodeId, Node>, users: map<ValueId, seq<NodeId>>, live: seq<NodeId>, i: nat)
    requires Checked(node, users, live, i) && i < |live|
    requires live[i] in node && IsSum(node[live[i]]) ==> node[live[i]].outputs != [] && !Mergeable(node, users, live[i])
    ensures Checked(node, users, live, i + 1)
  {
    hide Mergeable;
  }

  lemma AllChecked(node: map<NodeId, Node>, users: map<ValueId, seq<NodeId>>, live: seq<NodeId>)
    requires Checked(node, users, live, |live|) && SetOf(live) == node.Keys
    ensures Finished(node, users)
  {
    forall n | n in node && IsSum(node[n]) ensures node[n].outputs != [] && !Mergeable(node, users, n) {
      assert n in SetOf(live);
      var j :| 0 <= j < |live| && live[j] == n;
    }
  }

  /** MergeOperations with the merger AddToSum alone: what is merged is exactly what could be
      merged at the start. */
  method MergeOperations(graph: Graph) returns (ghost merged: set<ValueId>)
    requires Sound(graph)
    modifies graph
    ensures Sound(graph) && MergedInto(old(graph.node), graph.node, merged)
    ensures Finished(graph.node, graph.users)
    ensures forall v :: v in merged <==> MergeableValue(old(graph.node), v)
    ensures forall kernels: Kernels, keep: set<ValueId>, env: Env ::
      HasInputs(old(graph.node), keep) && Solves(kernels, old(graph.node), env) ==>
        (Equivalent(kernels, old(graph.node), graph.node, keep) <==>
         forall v :: v in keep ==> !MergeableValue(old(graph.node), v))
  {
    hide Mergeable, Equivalent, MergedInto, Gone, Sound, Finished, MergeableValue, HasInputs, Solves;
    merged := {};
    MergedIntoSelf(graph.node);
    SoundAcyclic(graph);
    var replaced := true;
    while replaced
      modifies graph
      invariant Sound(graph) && MergedInto(old(graph.node), graph.node, merged)
      invariant !replaced ==> Finished(graph.node, graph.users)
      decreases |graph.node|, replaced
    {
      ghost var before := graph.node;
      ghost var more;
      replaced, more := Pass(graph);
      MergedIntoTrans(old(graph.node), before, graph.node, merged, more);
      merged := merged + more;
    }
    AllMerged(graph, old(graph.node), merged);
    forall kernels: Kernels, keep: set<ValueId>, env: Env |
      HasInputs(old(graph.node), keep) && Solves(kernels, old(graph.node), env)
      ensures Equivalent(kernels, old(graph.node), graph.node, keep) <==>
        forall v :: v in keep ==> !MergeableValue(old(graph.node), v)
    {
      PreservedExactly(kernels, old(graph.node), graph.node, merged, keep, env);
    }
  }

  lemma SoundAcyclic(graph: Graph)
    requires Sound(graph)
    ensures Acyclic(graph.node)
  {
  }

  lemma AllMerged(graph: Graph, before: map<NodeId, Node>, merged: set<ValueId>)
    requires Sound(graph) && Finished(graph.node, graph.users) && MergedInto(before, graph.node, merged)
    ensures forall v :: v in merged <==> MergeableValue(before, v)
  {
    hide Mergeable, Equivalent, Gone, MergeableValue;
    forall v | MergeableValue(before, v) ensures v in merged {
      if MergeableValue(graph.node, v) { NothingMergeable(graph, v); }
    }
  }

  lemma NothingMergeable(graph: Graph, v: ValueId)
    requires graph.Valid({}) && Finished(graph.node, graph.users)
    ensures !MergeableValue(graph.node, v)
  {
    hide Mergeable;
    if a, o :| Merges(graph.node, a, o, v) { MergeableIs(graph.node, graph.users, a, o, v); }
  }

  /** The merged values may hold anything afterwards, while the graph before determines them. */
  lemma PreservedExactly(kernels: Kernels, before: map<NodeId, Node>, after: map<NodeId, Node>, merged: set<ValueId>,
                         keep: set<ValueId>, env: Env)
    requires Acyclic(before) && MergedInto(before, after, merged) && HasInputs(before, keep)
    requires Solves(kernels, before, env)
    ensures Equivalent(kernels, before, after, keep) <==> keep !! merged
  {
    hide Solves, Gone, MergeableValue, Equivalent, HasInputs;
    if v :| v in keep && v in merged {
      var fewer := keep - merged;
      MergedAreWritten(before, merged, keep);
      assert Equivalent(kernels, before, after, fewer);
      var env' := Matching(kernels, before, after, fewer, env);
      var d := if env(v) == Null then Bool(true) else Null;
      GoneIsFree(kernels, after, env', v, d);
      forall e: Env | Solves(kernels, before, e) && Agree(fewer, With(env', v, d), e) ensures e(v) == env(v) {
        assert MergeableValue(before, v);
        assert Solves(kernels, before, e);
        assert Agree(fewer, env, e) by {
          forall w | w in fewer ensures env(w) == e(w) { assert With(env', v, d)(w) == env'(w); }
        }
        WrittenIsDetermined(kernels, before, fewer, env, e, v);
      }
      NotMatched(kernels, before, after, keep, fewer, With(env', v, d), v);
    }
  }

  lemma MergedAreWritten(before: map<NodeId, Node>, merged: set<ValueId>, keep: set<ValueId>)
    requires forall v :: v in merged ==> MergeableValue(before, v)
    requires HasInputs(before, keep)
    ensures HasInputs(before, keep - merged)
  {
    forall v | v in merged ensures WrittenIn(before, v) {
      var a, o :| Merges(before, a, o, v);
      assert v in before[a].outputs;
    }
  }

  lemma Matching(kernels: Kernels, a: map<NodeId, Node>, b: map<NodeId, Node>, keep: set<ValueId>, env: Env)
    returns (env': Env)
    requires Equivalent(kernels, a, b, keep) && Solves(kernels, a, env)
    ensures Solves(kernels, b, env') && Agree(keep, env, env')
  {
    hide Solves;
    assert Continues(kernels, b, keep, env);
    env' :| Solves(kernels, b, env') && Agree(keep, env, env');
  }

  lemma WrittenIsDetermined(kernels: Kernels, node: map<NodeId, Node>, keep: set<ValueId>, a: Env, b: Env, v: ValueId)
    requires Acyclic(node) && HasInputs(node, keep) && Agree(keep, a, b) && MergeableValue(node, v)
    requires Solves(kernels, node, a) && Solves(kernels, node, b)
    ensures a(v) == b(v)
  {
    hide Solves, HasInputs;
    var rank :| Ranked(node, rank);
    var n, o :| Merges(node, n, o, v);
    RunIsDetermined(kernels, node, rank, keep, a, b, n);
    assert v in node[n].outputs;
  }

  lemma NotMatched(kernels: Kernels, before: map<NodeId, Node>, after: map<NodeId, Node>, keep: set<ValueId>,
                   fewer: set<ValueId>, odd: Env, v: ValueId)
    requires v in keep && fewer <= keep && Solves(kernels, after, odd)
    requires forall e: Env :: Solves(kernels, before, e) && Agree(fewer, odd, e) ==> e(v) != odd(v)
    ensures !Equivalent(kernels, before, after, keep)
  {
    hide Solves;
    assert !Continues(kernels, before, keep, odd);
  }

  /** The sum of three values as two additions, where the first sum is an output, too. */
  function TwoSums(): map<NodeId, Node> {
    map[0 := Node(Add, [0, 1], [2]), 1 := Node(Add, [2, 3], [4])]
  }

  /** Value 2 is merged, so that output is lost. */
  lemma OutputIsMerged(kernels: Kernels, after: map<NodeId, Node>, merged: set<ValueId>)
    requires MergedInto(TwoSums(), after, merged) && forall v :: v in merged <==> MergeableValue(TwoSums(), v)
    ensures Acyclic(TwoSums()) && WellFormed(TwoSums()) && MergeableValue(TwoSums(), 2)
    ensures !Equivalent(kernels, TwoSums(), after, {0, 1, 2, 3, 4})
  {
    hide Merges, MergedInto, Solves, TwoSums, Acyclic, WellFormed, HasInputs, MergeableValue, Equivalent;
    TwoSumsForm();
    TwoSumsInputs();
    var env := (v: ValueId) => Real(0.0);
    TwoSumsRun(kernels, env);
    PreservedExactly(kernels, TwoSums(), after, merged, {0, 1, 2, 3, 4}, env);
  }

  lemma TwoSumsForm()
    ensures Acyclic(TwoSums()) && WellFormed(TwoSums()) && MergeableValue(TwoSums(), 2)
  {
    var node := TwoSums();
    assert Ranked(node, map[0 := 0, 1 := 1]);
    assert Merges(node, 0, 1, 2);
  }

  lemma TwoSumsInputs()
    ensures HasInputs(TwoSums(), {0, 1, 2, 3, 4})
  {
  }

  lemma TwoSumsRun(kernels: Kernels, env: Env)
    requires forall v :: env(v) == Real(0.0)
    ensures Solves(kernels, TwoSums(), env)
  {
    assert Vals(env, [0, 1]) == [Real(0.0), Real(0.0)] && Vals(env, [2]) == [Real(0.0)];
    assert Vals(env, [2, 3]) == [Real(0.0), Real(0.0)] && Vals(env, [4]) == [Real(0.0)];
  }

  lemma MergedIntoTrans(first: map<NodeId, Node>, before: map<NodeId, Node>, after: map<NodeId, Node>,
                        merged: set<ValueId>, more: set<ValueId>)
    requires MergedInto(first, before, merged) && MergedInto(before, after, more)
    ensures MergedInto(first, after, merged + more)
  {
    hide Equivalent, Gone, MergeableValue;
    forall kernels: Kernels, keep: set<ValueId> | keep !! merged + more
      ensures Equivalent(kernels, first, after, keep)
    {
      EquivalentTrans(kernels, first, before, after, keep);
    }
  }

  /** A value nobody mentions may hold anything. */
  lemma GoneIsFree(kernels: Kernels, node: map<NodeId, Node>, env: Env, v: ValueId, d: Data)
    requires Gone(node, v) && Solves(kernels, node, env)
    ensures Solves(kernels, node, With(env, v, d))
  {
    hide Holds;
    forall n | n in node ensures Holds(kernels, node[n], With(env, v, d)) {
      HoldsWith(kernels, node[n], env, v, d);
    }
  }

  /** A merge preserves `keep` exactly when the intermediate sum is not in it: the code does not
      look whether it is an output of the graph.  Where the sum has one operand only, `keep`
      has to have the inputs of the graph, so that they cannot make up for the lost value. */
  lemma PreservedUnlessMerged(kernels: Kernels, node: map<NodeId, Node>, add: NodeId, out: NodeId, k: nat, sum: NodeId,
                              v: ValueId, keep: set<ValueId>, env: Env)
    requires Between(node, add, out, k, v) && Summing(node[add]) && Summing(node[out]) && sum !in node
    requires |node[add].inputs| >= 2 || (Acyclic(node) && HasInputs(node, keep) && Solves(kernels, node, env))
    requires Solves(kernels, AfterMerge(node, add, out, k, sum), env)
    ensures Equivalent(kernels, node, AfterMerge(node, add, out, k, sum), keep) <==> v !in keep
  {
    hide Solves, Total, Equivalent, AfterMerge, Summing, HasInputs, Acyclic;
    var after := AfterMerge(node, add, out, k, sum);
    if v in keep {
      MergedVanishes(node, add, out, k, sum, v);
      if |node[add].inputs| >= 2 {
        GoneIsFree(kernels, after, env, v, Bool(true));
        forall e: Env | Solves(kernels, node, e) ensures e(v) != Bool(true) {
          SumIsNumber(kernels, node, e, add, v);
        }
        NotContinued(kernels, node, after, keep, With(env, v, Bool(true)), v);
      } else {
        var d := if env(v) == Null then Bool(true) else Null;
        GoneIsFree(kernels, after, env, v, d);
        WithoutMerged(node, add, v, keep);
        forall e: Env | Solves(kernels, node, e) && Agree(keep - {v}, With(env, v, d), e) ensures e(v) == env(v) {
          SumIsDetermined(kernels, node, keep - {v}, env, e, add, v);
        }
        NotMatched(kernels, node, after, keep, keep - {v}, With(env, v, d), v);
      }
    } else {
      MergeIsEquivalent(kernels, node, add, out, k, sum, v, keep);
    }
  }

  lemma WithoutMerged(node: map<NodeId, Node>, add: NodeId, v: ValueId, keep: set<ValueId>)
    requires add in node && node[add].outputs == [v] && HasInputs(node, keep)
    ensures HasInputs(node, keep - {v})
  {
    assert v in node[add].outputs;
    assert WrittenIn(node, v);
  }

  lemma SumIsDetermined(kernels: Kernels, node: map<NodeId, Node>, keep: set<ValueId>, a: Env, b: Env, add: NodeId,
                        v: ValueId)
    requires Acyclic(node) && HasInputs(node, keep) && Agree(keep, a, b) && add in node && node[add].outputs == [v]
    requires Solves(kernels, node, a) && Solves(kernels, node, b)
    ensures a(v) == b(v)
  {
    hide Solves, HasInputs;
    var rank :| Ranked(node, rank);
    RunIsDetermined(kernels, node, rank, keep, a, b, add);
    assert v in node[add].outputs;
  }

  lemma NotContinued(kernels: Kernels, node: map<NodeId, Node>, after: map<NodeId, Node>, keep: set<ValueId>, odd: Env,
                     v: ValueId)
    requires v in keep && Solves(kernels, after, odd) && forall e: Env :: Solves(kernels, node, e) ==> e(v) != odd(v)
    ensures !Equivalent(kernels, node, after, keep)
  {
    hide Solves;
    assert !Continues(kernels, node, keep, odd);
  }

  lemma MergedVanishes(node: map<NodeId, Node>, add: NodeId, out: NodeId, k: nat, sum: NodeId, v: ValueId)
    requires Between(node, add, out, k, v)
    ensures Gone(AfterMerge(node, add, out, k, sum), v)
  {
    MergedUnmentioned(node, add, out, k, v);
  }

  lemma SumIsNumber(kernels: Kernels, node: map<NodeId, Node>, env: Env, n: NodeId, v: ValueId)
    requires n in node && Summing(node[n]) && node[n].outputs == [v] && |node[n].inputs| >= 2
    requires Solves(kernels, node, env)
    ensures env(v).Int? || env(v).Real?
  {
    assert Holds(kernels, node[n], env);
    SummingHolds(kernels, node[n], env);
  }
}
