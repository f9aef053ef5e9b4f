/** compiler/simplifier.cc: ReplaceIdentity, ReplaceSum and the fixpoint loop of Simplify. */
module Simplifier {
  import opened Ir
  import opened GraphIr
  import opened Builder
  import opened Renaming
  import opened Rewriting
  import MergeSum

  // ---- ReplaceIdentity ----

  /** All nodes, with reads of `v` redirected to `w`. */
  function Redirect(node: map<NodeId, Node>, v: ValueId, w: ValueId): map<NodeId, Node> {
    map n | n in node :: node[n].(inputs := RenameSeq(map[v := w], node[n].inputs))
  }

  /** Every reader of `v` reads `w` instead. */
  method RedirectUsers(graph: Graph, v: ValueId, w: ValueId)
    requires graph.Valid({}) && v != w && w < graph.nextValue
    modifies graph`node, graph`users
    ensures graph.Valid({}) && graph.node == Redirect(old(graph.node), v, w)
  {
    hide *;
    ghost var before, group := graph.node, graph.node.Keys;
    var users, i := graph.Users(v), 0;
    RedirectBegins(graph, v, w);
    assert users[0..] == users;
    while i < |users|
      modifies graph`node, graph`users
      invariant 0 <= i <= |users| && graph.Valid({}) && graph.node.Keys == group && w < graph.nextValue
      invariant Redirecting(before, graph.node, group, v, w, users[i..])
      invariant forall u :: u in users ==> u in group
    {
      assert users[i] in users && users[i..] == [users[i]] + users[i + 1..];
      RedirectOne(before, graph.node, group, v, w, users[i + 1..], users[i]);
      graph.ReplaceInput(users[i], v, w, {});
      i := i + 1;
    }
    assert users[i..] == [];
    RedirectAll(before, graph.node, group, v, w);
    RedirectIs(before, graph.node, v, w);
  }

  lemma AttachedUser(node: map<NodeId, Node>, users: map<ValueId, seq<NodeId>>, v: ValueId, u: NodeId)
    requires DefUse(node, users) && u in UsersOf(users, v)
    ensures u in node
  {
    UsesCounted(node, users, u, v);
  }

  lemma RedirectBegins(graph: Graph, v: ValueId, w: ValueId)
    requires graph.Valid({})
    ensures Redirecting(graph.node, graph.node, graph.node.Keys, v, w, graph.Users(v))
    ensures forall u :: u in graph.Users(v) ==> u in graph.node
  {
    hide DefUse, Written, Below, Redirecting;
    RedirectStarts(graph, graph.node.Keys, v, w);
    forall u | u in graph.Users(v) ensures u in graph.node { AttachedUser(graph.node, graph.users, v, u); }
  }

  lemma RedirectIs(before: map<NodeId, Node>, node: map<NodeId, Node>, v: ValueId, w: ValueId)
    requires NewInputs(before, node, before.Keys, v, w)
    ensures node == Redirect(before, v, w)
  {
    hide RenameSeq;
  }

  lemma RedirectedVals(a: Env, b: Env, v: ValueId, w: ValueId, vs: seq<ValueId>)
    requires a(v) == b(w) && forall x: ValueId :: x != v ==> a(x) == b(x)
    ensures Vals(a, vs) == Vals(b, RenameSeq(map[v := w], vs))
  {
  }

  /** Reading an equal value makes no difference. */
  lemma RedirectHolds(kernels: Kernels, n: Node, a: Env, b: Env, v: ValueId, w: ValueId)
    requires a(v) == b(w) && (forall x: ValueId :: x != v ==> a(x) == b(x)) && (v in n.outputs ==> a(v) == b(v))
    ensures Holds(kernels, n, a) <==> Holds(kernels, n.(inputs := RenameSeq(map[v := w], n.inputs)), b)
  {
    hide Apply, RenameSeq;
    RedirectedVals(a, b, v, w, n.inputs);
    assert Vals(a, n.outputs) == Vals(b, n.outputs) by {
      forall i | 0 <= i < |n.outputs| ensures a(n.outputs[i]) == b(n.outputs[i]) { assert n.outputs[i] in n.outputs; }
    }
  }

  ghost predicate IdentityOf(node: map<NodeId, Node>, id: NodeId, v: ValueId, w: ValueId) {
    id in node && node[id] == Node(Identity, [w], [v]) && v != w
    && forall n :: n in node && n != id ==> v !in node[n].outputs
  }

  /** An Identity node whose output is neither input nor output of the graph may be bypassed. */
  lemma BypassIsEquivalent(kernels: Kernels, node: map<NodeId, Node>, id: NodeId, v: ValueId, w: ValueId,
                           keep: set<ValueId>)
    requires IdentityOf(node, id, v, w) && v !in keep
    ensures Equivalent(kernels, node, Redirect(node, v, w) - {id}, keep)
  {
    hide Holds;
    var after := Redirect(node, v, w) - {id};
    forall env: Env | Solves(kernels, node, env) ensures Continues(kernels, after, keep, env) {
      assert Holds(kernels, node[id], env);
      IdentityHolds(kernels, env, w, v);
      forall n | n in after ensures Holds(kernels, after[n], env) {
        RedirectHolds(kernels, node[n], env, env, v, w);
      }
      assert Solves(kernels, after, env) && Agree(keep, env, env);
    }
    forall env': Env | Solves(kernels, after, env') ensures Continues(kernels, node, keep, env') {
      var env := With(env', v, env'(w));
      forall n | n in node ensures Holds(kernels, node[n], env) {
        if n == id {
          IdentityHolds(kernels, env, w, v);
        } else {
          assert Holds(kernels, after[n], env');
          RedirectHolds(kernels, node[n], env, env', v, w);
        }
      }
      assert Solves(kernels, node, env) && Agree(keep, env', env);
    }
  }

  /** What the rewrites keep. */
  ghost predicate Sound(graph: Graph)
    reads graph
  {
    graph.Valid({}) && Listed(graph) && Acyclic(graph.node) && Shaped(graph.node)
  }

  ghost predicate Shaped(node: map<NodeId, Node>) {
    forall n :: n in node ==>
      && (node[n].op.Identity? ==> |node[n].inputs| == 1 && |node[n].outputs| == 1)
      && (node[n].op.Sum? ==> node[n].inputs != [] && |node[n].outputs| == 1)
  }

  lemma IdentityForm(graph: Graph, id: NodeId)
    requires Sound(graph) && id in graph.node && graph.node[id].op.Identity?
    ensures |graph.node[id].inputs| == 1 && |graph.node[id].outputs| == 1
    ensures IdentityOf(graph.node, id, graph.node[id].outputs[0], graph.node[id].inputs[0])
    ensures graph.node[id].inputs[0] < graph.nextValue
  {
    hide DefUse;
    var n := graph.node[id];
    assert n.inputs[0] in n.inputs && n.outputs[0] in n.outputs;
    OnlyWriter(graph, id, n.outputs[0]);
    if n.inputs[0] == n.outputs[0] {
      assert Feeds(graph.node, id, id);
      MergeSum.NoSelfLoop(graph.node, id);
      assert false;
    }
  }

  lemma BypassIsAcyclic(node: map<NodeId, Node>, id: NodeId, v: ValueId, w: ValueId)
    requires Acyclic(node) && IdentityOf(node, id, v, w)
    ensures Acyclic(Redirect(node, v, w))
  {
    var after := Redirect(node, v, w);
    var rank :| Ranked(node, rank);
    forall a, b | Feeds(after, a, b) ensures rank[a] < rank[b] {
      var x :| x in after[a].outputs && x in after[b].inputs;
      RenamedMember(map[v := w], node[b].inputs, x);
      var y :| y in node[b].inputs && NameOf(map[v := w], y) == x;
      if y == v {
        assert x == w && w in node[id].inputs && v in node[id].outputs;
        assert Feeds(node, a, id) && Feeds(node, id, b);
      } else {
        assert Feeds(node, a, b);
      }
    }
    assert Ranked(after, rank);
  }

  /** ReplaceIdentity: readers of the output read the input.  `pinned` are the values that are not temporary. */
  method ReplaceIdentity(graph: Graph, id: NodeId, pinned: set<ValueId>) returns (replaced: bool)
    requires Sound(graph) && id in graph.node && graph.node[id].op.Identity?
    modifies graph`node, graph`users
    ensures Sound(graph) && id in graph.node && graph.node[id] == old(graph.node)[id]
    ensures var n := old(graph.node)[id]; replaced <==> n.inputs[0] !in pinned && n.outputs[0] !in pinned
    ensures !replaced ==> graph.node == old(graph.node)
    ensures replaced ==> graph.node == Redirect(old(graph.node), graph.node[id].outputs[0], graph.node[id].inputs[0])
    ensures replaced ==> forall n :: n in graph.node ==> graph.node[id].outputs[0] !in graph.node[n].inputs
  {
    hide DefUse, Written, Below, Acyclic, RenameSeq;
    IdentityForm(graph, id);
    var w, v := graph.node[id].inputs[0], graph.node[id].outputs[0];
    if w in pinned || v in pinned { return false; }
    ghost var before := graph.node;
    BypassIsAcyclic(before, id, v, w);
    RedirectUsers(graph, v, w);
    RedirectForm(before, id, v, w);
    replaced := true;
  }

  lemma RedirectForm(node: map<NodeId, Node>, id: NodeId, v: ValueId, w: ValueId)
    requires IdentityOf(node, id, v, w) && Shaped(node)
    ensures Shaped(Redirect(node, v, w)) && Redirect(node, v, w)[id] == node[id]
    ensures forall n :: n in node ==> v !in Redirect(node, v, w)[n].inputs
  {
    assert RenameSeq(map[v := w], [w]) == [w];
  }

  // ---- ReplaceSum ----

  /** The first two operands of sum `n` are added by a node of their own. */
  function Split(node: map<NodeId, Node>, n: NodeId, add: NodeId, t: ValueId): map<NodeId, Node>
    requires n in node && |node[n].inputs| >= 2
  {
    node[add := Node(Add, node[n].inputs[..2], [t])][n := node[n].(inputs := [t] + node[n].inputs[2..])]
  }

  /** Both have the same nodes, maybe under other ids. */
  ghost predicate SameNodes(a: map<NodeId, Node>, b: map<NodeId, Node>) {
    && (forall n :: n in a ==> Has(b, a[n]))
    && (forall n :: n in b ==> Has(a, b[n]))
  }

  lemma SameNodesEquivalent(kernels: Kernels, a: map<NodeId, Node>, b: map<NodeId, Node>, keep: set<ValueId>)
    requires SameNodes(a, b)
    ensures Equivalent(kernels, a, b, keep)
  {
    hide Has, Holds;
    forall env: Env | Solves(kernels, a, env) ensures Continues(kernels, b, keep, env) {
      forall n | n in b ensures Holds(kernels, b[n], env) { HasMeans(kernels, a, env, b[n]); }
      assert Solves(kernels, b, env) && Agree(keep, env, env);
    }
    forall env: Env | Solves(kernels, b, env) ensures Continues(kernels, a, keep, env) {
      forall n | n in a ensures Holds(kernels, a[n], env) { HasMeans(kernels, b, env, a[n]); }
      assert Solves(kernels, a, env) && Agree(keep, env, env);
    }
  }

  lemma SplitBetween(node: map<NodeId, Node>, n: NodeId, add: NodeId, t: ValueId)
    requires n in node && MergeSum.IsSum(node[n]) && |node[n].inputs| >= 2 && |node[n].outputs| == 1 && add !in node
    requires Gone(node, t)
    ensures MergeSum.Between(Split(node, n, add, t), add, n, 0, t)
  {
    var split := Split(node, n, add, t);
    var inputs := node[n].inputs;
    assert forall i :: 0 <= i < |inputs| ==> inputs[i] in inputs;
    assert !Mentions(node[n], t);
    assert forall i :: 0 <= i < 2 ==> inputs[..2][i] == inputs[i];
    forall m | m in split && m != n ensures t !in split[m].inputs {
      if m != add { assert !Mentions(node[m], t); }
    }
    forall m | m in split && m != add ensures t !in split[m].outputs {
      assert !Mentions(node[m], t);
    }
  }

  /** Splitting off an addition is the converse of merging. */
  lemma SplitIsEquivalent(kernels: Kernels, node: map<NodeId, Node>, n: NodeId, add: NodeId, t: ValueId, spare: NodeId,
                          keep: set<ValueId>)
    requires n in node && node[n].op.Sum? && |node[n].inputs| >= 3 && |node[n].outputs| == 1
    requires add !in node && spare !in node && spare != add && Gone(node, t) && t !in keep
    ensures Equivalent(kernels, node, Split(node, n, add, t), keep)
  {
    hide Equivalent;
    var split := Split(node, n, add, t);
    SplitBetween(node, n, add, t);
    MergeSum.MergeIsEquivalent(kernels, split, add, n, 0, spare, t, keep);
    var merged := MergeSum.AfterMerge(split, add, n, 0, spare);
    MergedBack(node, n, add, t, spare);
    SameNodesEquivalent(kernels, merged, node, keep);
    EquivalentFlip(kernels, split, merged, node, keep);
  }

  lemma EquivalentFlip(kernels: Kernels, split: map<NodeId, Node>, merged: map<NodeId, Node>, node: map<NodeId, Node>,
                       keep: set<ValueId>)
    requires Equivalent(kernels, split, merged, keep) && Equivalent(kernels, merged, node, keep)
    ensures Equivalent(kernels, node, split, keep)
  {
    hide Matched;
    MatchedTrans(kernels, split, merged, node, keep);
    MatchedTrans(kernels, node, merged, split, keep);
  }

  lemma MergedBack(node: map<NodeId, Node>, n: NodeId, add: NodeId, t: ValueId, spare: NodeId)
    requires n in node && node[n].op.Sum? && |node[n].inputs| >= 3 && |node[n].outputs| == 1
    requires add !in node && spare !in node && spare != add
    ensures SameNodes(MergeSum.AfterMerge(Split(node, n, add, t), add, n, 0, spare), node)
  {
    var merged := MergeSum.AfterMerge(Split(node, n, add, t), add, n, 0, spare);
    var inputs := node[n].inputs;
    assert [] + inputs[..2] + inputs[2..] == inputs;
    assert ([t] + inputs[2..])[..0] == [] && ([t] + inputs[2..])[1..] == inputs[2..];
    assert merged[spare] == node[n];
    forall m | m in merged ensures Has(node, merged[m]) {
      if m == spare { assert node[n] == merged[m]; } else { assert node[m] == merged[m]; }
    }
    forall m | m in node ensures Has(merged, node[m]) {
      if m == n { assert merged[spare] == node[m]; } else { assert merged[m] == node[m]; }
    }
  }

  lemma SplitIsAcyclic(node: map<NodeId, Node>, n: NodeId, add: NodeId, t: ValueId)
    requires n in node && MergeSum.IsSum(node[n]) && |node[n].inputs| >= 2 && |node[n].outputs| == 1 && add !in node
    requires Gone(node, t)
    requires Acyclic(node)
    ensures Acyclic(Split(node, n, add, t))
  {
    var split := Split(node, n, add, t);
    var inputs := node[n].inputs;
    var rank :| Ranked(node, rank);
    var more := map m | m in split :: if m == add then 2 * rank[n] else if m == n then 2 * rank[n] + 1 else 2 * rank[m];
    assert forall i :: 0 <= i < 2 ==> inputs[..2][i] in inputs;
    assert forall i :: 0 <= i < |inputs| - 2 ==> inputs[2..][i] in inputs;
    forall a, b | Feeds(split, a, b) ensures more[a] < more[b] {
      var x :| x in split[a].outputs && x in split[b].inputs;
      assert a != add ==> !Mentions(node[a], t);
      assert b != add ==> !Mentions(node[b], t);
      var b' := if b == add then n else b;
      if a != add {
        assert x in node[a].outputs && x in node[b'].inputs;
        assert Feeds(node, a, b');
      }
    }
    assert Ranked(split, more);
  }

  /** The sum as it would be now: the value so far and the operands still to come. */
  function Remaining(node: map<NodeId, Node>, n: NodeId, v: ValueId, i: nat): map<NodeId, Node>
    requires n in node && i <= |node[n].inputs|
  {
    node[n := node[n].(inputs := [v] + node[n].inputs[i..])]
  }

  /** Additions for the operands up to `i` are in place; `n` still has all its operands. */
  ghost predicate Adding(first: map<NodeId, Node>, node: map<NodeId, Node>, n: NodeId, v: ValueId, i: nat, bound: nat) {
    && n in first && n in node && node[n] == first[n] && 1 <= i < |node[n].inputs| && |node[n].outputs| == 1
    && node[n].op.Sum?
    && (forall kernels: Kernels, keep: set<ValueId> :: (forall k :: k in keep ==> k < bound) ==>
          Equivalent(kernels, first, Remaining(node, n, v, i), keep))
    && Acyclic(Remaining(node, n, v, i))
    && (forall m :: m in node && m !in first ==> node[m].op.Add?)
    && (forall m :: m in first ==> m in node && node[m] == first[m])
  }

  lemma AddingStarts(node: map<NodeId, Node>, n: NodeId, bound: nat)
    requires n in node && node[n].op.Sum? && |node[n].inputs| >= 2 && |node[n].outputs| == 1 && Acyclic(node)
    ensures Adding(node, node, n, node[n].inputs[0], 1, bound)
  {
    hide Equivalent;
    assert [node[n].inputs[0]] + node[n].inputs[1..] == node[n].inputs;
    assert Remaining(node, n, node[n].inputs[0], 1) == node;
    forall kernels: Kernels, keep: set<ValueId> ensures Equivalent(kernels, node, node, keep) {
      EquivalentSelf(kernels, node, keep);
    }
  }

  lemma AddingMore(first: map<NodeId, Node>, node: map<NodeId, Node>, n: NodeId, v: ValueId, i: nat, bound: nat,
                   add: NodeId, t: ValueId, spare: NodeId)
    requires Adding(first, node, n, v, i, bound) && i + 1 < |node[n].inputs| && add !in node && spare !in node
    requires spare != add
    requires bound <= t && t != v && (forall m :: m in node ==> !Mentions(node[m], t))
    ensures Adding(first, node[add := Node(Add, [v, node[n].inputs[i]], [t])], n, t, i + 1, bound)
  {
    hide Equivalent, Acyclic;
    var node' := node[add := Node(Add, [v, node[n].inputs[i]], [t])];
    var before, after := Remaining(node, n, v, i), Remaining(node', n, t, i + 1);
    SplitRemaining(node, n, v, i, add, t);
    RemainingFresh(node, n, v, i, t);
    SplitIsAcyclic(before, n, add, t);
    forall kernels: Kernels, keep: set<ValueId> | (forall k :: k in keep ==> k < bound)
      ensures Equivalent(kernels, first, after, keep)
    {
      SplitIsEquivalent(kernels, before, n, add, t, spare, keep);
      EquivalentTrans(kernels, first, before, after, keep);
    }
  }

  lemma SplitRemaining(node: map<NodeId, Node>, n: NodeId, v: ValueId, i: nat, add: NodeId, t: ValueId)
    requires n in node && add !in node && i + 1 < |node[n].inputs|
    ensures var before := Remaining(node, n, v, i);
      && |before[n].inputs| >= 3
      && Remaining(node[add := Node(Add, [v, node[n].inputs[i]], [t])], n, t, i + 1) == Split(before, n, add, t)
  {
    var inputs := node[n].inputs;
    var now := [v] + inputs[i..];
    assert now[..2] == [v, inputs[i]];
    assert now[2..] == inputs[i + 1..];
  }

  lemma RemainingFresh(node: map<NodeId, Node>, n: NodeId, v: ValueId, i: nat, t: ValueId)
    requires n in node && i <= |node[n].inputs| && t != v && (forall m :: m in node ==> !Mentions(node[m], t))
    ensures Gone(Remaining(node, n, v, i), t)
  {
    assert !Mentions(node[n], t);
    assert forall k :: 0 <= k < |node[n].inputs| - i ==> node[n].inputs[i..][k] in node[n].inputs;
  }

  /** Node `c` stands in for `n`. */
  function StandIn(node: map<NodeId, Node>, n: NodeId, c: NodeId, m: Node): map<NodeId, Node> {
    node[c := m] - {n}
  }

  lemma StandInIsEquivalent(kernels: Kernels, node: map<NodeId, Node>, n: NodeId, c: NodeId, m: Node,
                            keep: set<ValueId>)
    requires n in node && c !in node && forall env: Env :: Holds(kernels, m, env) <==> Holds(kernels, node[n], env)
    ensures Equivalent(kernels, node, StandIn(node, n, c, m), keep)
  {
    hide Holds;
    var after := StandIn(node, n, c, m);
    forall env: Env | Solves(kernels, node, env) ensures Continues(kernels, after, keep, env) {
      assert Solves(kernels, after, env) && Agree(keep, env, env);
    }
    forall env: Env | Solves(kernels, after, env) ensures Continues(kernels, node, keep, env) {
      assert Holds(kernels, after[c], env);
      forall k | k in node ensures Holds(kernels, node[k], env) {
        if k != n { assert after[k] == node[k]; }
      }
      assert Solves(kernels, node, env) && Agree(keep, env, env);
    }
  }

  lemma StandInIsAcyclic(node: map<NodeId, Node>, n: NodeId, c: NodeId, m: Node)
    requires n in node && c !in node && m.inputs == node[n].inputs && m.outputs == node[n].outputs && Acyclic(node)
    ensures Acyclic(StandIn(node, n, c, m))
  {
    var after := StandIn(node, n, c, m);
    var rank :| Ranked(node, rank);
    var more := rank[c := rank[n]];
    forall a, b | Feeds(after, a, b) ensures more[a] < more[b] {
      assert Feeds(node, if a == c then n else a, if b == c then n else b);
    }
    assert Ranked(after, more);
  }

  /** An Add of two operands, or an Identity of one, is their Sum. */
  lemma SumAsNode(kernels: Kernels, env: Env, inputs: seq<ValueId>, outputs: seq<ValueId>)
    requires 1 <= |inputs| <= 2 && |outputs| == 1
    ensures Holds(kernels, Node(if |inputs| == 1 then Identity else Add, inputs, outputs), env)
      <==> Holds(kernels, Node(Sum, inputs, outputs), env)
  {
    SummingHolds(kernels, Node(Sum, inputs, outputs), env);
    if |inputs| == 1 {
      assert inputs == [inputs[0]] && outputs == [outputs[0]];
      IdentityHolds(kernels, env, inputs[0], outputs[0]);
    } else {
      SummingHolds(kernels, Node(Add, inputs, outputs), env);
    }
  }

  function Sums(node: map<NodeId, Node>): set<NodeId> {
    set n | n in node && node[n].op.Sum?
  }

  function Identities(node: map<NodeId, Node>): set<NodeId> {
    set n | n in node && node[n].op.Identity?
  }

  /** The same for all values older than `bound`, without a cycle. */
  ghost predicate Rewrites(before: map<NodeId, Node>, after: map<NodeId, Node>, bound: nat) {
    && Acyclic(after)
    && forall kernels: Kernels, keep: set<ValueId> :: (forall k :: k in keep ==> k < bound) ==>
         Equivalent(kernels, before, after, keep)
  }

  /** The additions are complete. */
  lemma AddingEnds(first: map<NodeId, Node>, node: map<NodeId, Node>, n: NodeId, v: ValueId, bound: nat, c: NodeId)
    requires n in first && |first[n].inputs| >= 2 && c !in node && Shaped(first)
    requires Adding(first, node, n, v, |first[n].inputs| - 1, bound)
    ensures var after := StandIn(node, n, c, Node(Add, [v, first[n].inputs[|first[n].inputs| - 1]], first[n].outputs));
      Rewrites(first, after, bound) && Shaped(after) && Sums(after) == Sums(first) - {n}
  {
    hide Equivalent, Holds, Acyclic;
    var inputs := first[n].inputs;
    var m := Node(Add, [v, inputs[|inputs| - 1]], first[n].outputs);
    var last := Remaining(node, n, v, |inputs| - 1);
    assert inputs[|inputs| - 1..] == [inputs[|inputs| - 1]];
    assert last[n] == Node(Sum, m.inputs, m.outputs);
    var after := StandIn(node, n, c, m);
    assert after == StandIn(last, n, c, m);
    StandInIsAcyclic(last, n, c, m);
    forall kernels: Kernels, keep: set<ValueId> | (forall k :: k in keep ==> k < bound)
      ensures Equivalent(kernels, first, after, keep)
    {
      forall env: Env ensures Holds(kernels, m, env) <==> Holds(kernels, last[n], env) {
        SumAsNode(kernels, env, m.inputs, m.outputs);
      }
      StandInIsEquivalent(kernels, last, n, c, m, keep);
      EquivalentTrans(kernels, first, last, after, keep);
    }
  }

  lemma SingleEnds(node: map<NodeId, Node>, n: NodeId, bound: nat, c: NodeId)
    requires n in node && node[n].op.Sum? && |node[n].inputs| == 1 && |node[n].outputs| == 1 && c !in node
    requires Shaped(node) && Acyclic(node)
    ensures var after := StandIn(node, n, c, Node(Identity, node[n].inputs, node[n].outputs));
      Rewrites(node, after, bound) && Shaped(after) && Sums(after) == Sums(node) - {n}
  {
    hide Equivalent, Holds, Acyclic;
    var m := Node(Identity, node[n].inputs, node[n].outputs);
    StandInIsAcyclic(node, n, c, m);
    forall kernels: Kernels, keep: set<ValueId> ensures Equivalent(kernels, node, StandIn(node, n, c, m), keep) {
      forall env: Env ensures Holds(kernels, m, env) <==> Holds(kernels, node[n], env) {
        SumAsNode(kernels, env, m.inputs, m.outputs);
      }
      StandInIsEquivalent(kernels, node, n, c, m, keep);
    }
  }

  lemma NewValueFresh(graph: Graph, t: ValueId)
    requires graph.Valid({}) && t >= graph.nextValue
    ensures forall m :: m in graph.node ==> !Mentions(graph.node[m], t)
  {
    hide DefUse, Written;
  }

  lemma SumForm(graph: Graph, n: NodeId)
    requires Sound(graph) && n in graph.node && graph.node[n].op.Sum?
    ensures graph.node[n].inputs != [] && |graph.node[n].outputs| == 1
    ensures forall i :: 0 <= i < |graph.node[n].inputs| ==> graph.node[n].inputs[i] < graph.nextValue
  {
    hide DefUse, Written;
    assert forall i :: 0 <= i < |graph.node[n].inputs| ==> graph.node[n].inputs[i] in graph.node[n].inputs;
  }

  lemma NextNodeNew(graph: Graph)
    requires graph.Valid({})
    ensures graph.nextNode !in graph.node && graph.nextNode + 1 !in graph.node
  {
    hide DefUse, Written;
  }

  /** The last node of the chain takes over the output, and the sum is detached. */
  method TakeOver(graph: Graph, n: NodeId, op: Op, inputs: seq<ValueId>)
    requires graph.Valid({}) && Listed(graph) && n in graph.node && forall v :: v in inputs ==> v < graph.nextValue
    modifies graph
    ensures graph.Valid({}) && Listed(graph) && old(graph.nextNode) !in old(graph.node)
    ensures graph.nextValue == old(graph.nextValue)
    ensures graph.node == StandIn(old(graph.node), n, old(graph.nextNode), Node(op, inputs, old(graph.node)[n].outputs))
  {
    hide DefUse;
    var outputs := graph.node[n].outputs;
    MergeSum.DyingIsValid(graph, n);
    hide Written, Below;
    var c := graph.AddNode(op, inputs, outputs, {n});
    graph.Detach(n, {n});
    assert {n} - {n} == {};
  }

  /** ReplaceSum, together with the detaching that Simplify does afterwards. */
  method ReplaceSum(graph: Graph, n: NodeId)
    requires Sound(graph) && n in graph.node && graph.node[n].op.Sum?
    modifies graph
    ensures Sound(graph) && Rewrites(old(graph.node), graph.node, old(graph.nextValue))
    ensures Sums(graph.node) == Sums(old(graph.node)) - {n}
    ensures graph.nextValue >= old(graph.nextValue)
  {
    hide DefUse, Written, Below, Adding, Rewrites, Acyclic, Sums, StandIn, Equivalent;
    ghost var first, bound := graph.node, graph.nextValue;
    SumForm(graph, n);
    var inputs: seq<ValueId> := graph.node[n].inputs;
    var v: ValueId := inputs[0];
    NextNodeNew(graph);
    if |inputs| == 1 {
      SingleEnds(first, n, bound, graph.nextNode);
      assert inputs == [v];
      TakeOver(graph, n, Identity, [v]);
      RewritesAcyclic(first, graph.node, bound);
      return;
    }
    AddingStarts(first, n, bound);
    var i := 1;
    while i < |inputs| - 1
      modifies graph
      invariant 1 <= i <= |inputs| - 1 && graph.Valid({}) && Listed(graph) && n in graph.node
      invariant graph.node[n] == first[n]
      invariant Adding(first, graph.node, n, v, i, bound) && v < graph.nextValue && bound <= graph.nextValue
    {
      ghost var node, add := graph.node, graph.nextNode;
      NewValueFresh(graph, graph.nextValue);
      NextNodeNew(graph);
      var t := EmitHere(graph, Add, [v, inputs[i]]);
      AddingMore(first, node, n, v, i, bound, add, t, add + 1);
      v := t;
      i := i + 1;
    }
    NextNodeNew(graph);
    AddingEnds(first, graph.node, n, v, bound, graph.nextNode);
    TakeOver(graph, n, Add, [v, inputs[|inputs| - 1]]);
    RewritesAcyclic(first, graph.node, bound);
  }

  lemma RewritesAcyclic(before: map<NodeId, Node>, after: map<NodeId, Node>, bound: nat)
    requires Rewrites(before, after, bound)
    ensures Acyclic(after)
  {
    hide Equivalent, Acyclic;
  }

  /** GraphBuilder::Op, with the id of the new node. */
  method EmitHere(graph: Graph, op: Op, inputs: seq<ValueId>) returns (t: ValueId)
    requires graph.Valid({}) && Listed(graph) && forall i :: i in inputs ==> i < graph.nextValue
    modifies graph
    ensures graph.Valid({}) && Listed(graph) && t == old(graph.nextValue) && graph.nextValue == t + 1
    ensures old(graph.nextNode) !in old(graph.node) && old(graph.nextNode) + 1 !in old(graph.node)
    ensures graph.node == old(graph.node)[old(graph.nextNode) := Node(op, inputs, [t])]
  {
    hide DefUse, Written;
    t := graph.AddValue({});
    var n := graph.AddNode(op, inputs, [t], {});
  }

  // ---- the fixpoint loop ----

  /** The same for the pinned values. */
  ghost predicate Keeps(before: map<NodeId, Node>, after: map<NodeId, Node>, pinned: set<ValueId>) {
    forall kernels: Kernels :: Equivalent(kernels, before, after, pinned)
  }

  lemma KeepsSelf(node: map<NodeId, Node>, pinned: set<ValueId>)
    ensures Keeps(node, node, pinned)
  {
    hide Equivalent;
    forall kernels: Kernels ensures Equivalent(kernels, node, node, pinned) { EquivalentSelf(kernels, node, pinned); }
  }

  lemma KeepsTrans(a: map<NodeId, Node>, b: map<NodeId, Node>, c: map<NodeId, Node>, pinned: set<ValueId>)
    requires Keeps(a, b, pinned) && Keeps(b, c, pinned)
    ensures Keeps(a, c, pinned)
  {
    hide Equivalent;
    forall kernels: Kernels ensures Equivalent(kernels, a, c, pinned) { EquivalentTrans(kernels, a, b, c, pinned); }
  }

  lemma RewritesKeep(before: map<NodeId, Node>, after: map<NodeId, Node>, bound: nat, pinned: set<ValueId>)
    requires Rewrites(before, after, bound) && forall v :: v in pinned ==> v < bound
    ensures Keeps(before, after, pinned)
  {
    hide Equivalent, Acyclic;
  }

  lemma BypassKeeps(node: map<NodeId, Node>, id: NodeId, v: ValueId, w: ValueId, pinned: set<ValueId>)
    requires IdentityOf(node, id, v, w) && v !in pinned && Shaped(node) && Acyclic(node)
    ensures var after := Redirect(node, v, w) - {id};
      Keeps(node, after, pinned) && Shaped(after) && Acyclic(after)
      && Sums(after) == Sums(node) && Identities(after) == Identities(node) - {id}
  {
    hide Equivalent, IdentityOf, Acyclic, RenameSeq;
    BypassIsAcyclic(node, id, v, w);
    FewerNodesAcyclic(Redirect(node, v, w), Redirect(node, v, w) - {id});
    forall kernels: Kernels ensures Equivalent(kernels, node, Redirect(node, v, w) - {id}, pinned) {
      BypassIsEquivalent(kernels, node, id, v, w, pinned);
    }
    forall n ensures n in Sums(Redirect(node, v, w) - {id}) <==> n in Sums(node) {
      IdentityIs(node, id, v, w);
    }
    forall n ensures n in Identities(Redirect(node, v, w) - {id}) <==> n in Identities(node) - {id} {
    }
  }

  lemma IdentityIs(node: map<NodeId, Node>, id: NodeId, v: ValueId, w: ValueId)
    requires IdentityOf(node, id, v, w)
    ensures id in node && node[id] == Node(Identity, [w], [v])
  {
  }

  /** What is left for the simplifiers of Identity and Sum to do. */
  predicate Simplifiable(n: Node, pinned: set<ValueId>) {
    || n.op.Sum?
    || (n.op.Identity? && |n.inputs| == 1 && |n.outputs| == 1 && n.inputs[0] !in pinned && n.outputs[0] !in pinned)
  }

  /** One node of the loop: its simplifier, and detaching when that has replaced it. */
  method SimplifyNode(graph: Graph, n: NodeId, pinned: set<ValueId>) returns (replaced: bool)
    requires Sound(graph) && n in graph.node && forall v :: v in pinned ==> v < graph.nextValue
    modifies graph
    ensures Sound(graph) && Keeps(old(graph.node), graph.node, pinned) && graph.nextValue >= old(graph.nextValue)
    ensures replaced <==> Simplifiable(old(graph.node)[n], pinned)
    ensures !replaced ==> graph.node == old(graph.node)
    ensures replaced ==> Less(graph.node, old(graph.node))
  {
    hide DefUse, Written, Below, Keeps, Rewrites, Acyclic, Sums, Identities, Redirect;
    ghost var before, bound := graph.node, graph.nextValue;
    KeepsSelf(before, pinned);
    if graph.node[n].op.Sum? {
      ReplaceSum(graph, n);
      RewritesKeep(before, graph.node, bound, pinned);
      IsASum(before, n);
      return true;
    }
    if graph.node[n].op.Identity? {
      IdentityForm(graph, n);
      ghost var w, v := graph.node[n].inputs[0], graph.node[n].outputs[0];
      replaced := ReplaceIdentity(graph, n, pinned);
      if replaced {
        BypassKeeps(before, n, v, w, pinned);
        IsAnIdentity(before, n);
        graph.Detach(n, {});
        assert {} - {n} == {};
      }
      return;
    }
    replaced := false;
  }

  /** Fewer sums, or as many sums and fewer identities. */
  ghost predicate Less(after: map<NodeId, Node>, before: map<NodeId, Node>) {
    Sums(after) < Sums(before) || (Sums(after) == Sums(before) && Identities(after) < Identities(before))
  }

  lemma LessTrans(a: map<NodeId, Node>, b: map<NodeId, Node>, c: map<NodeId, Node>)
    requires Less(a, b) && Less(b, c)
    ensures Less(a, c)
  {
  }

  lemma IsASum(node: map<NodeId, Node>, n: NodeId)
    requires n in node && node[n].op.Sum?
    ensures Sums(node) - {n} < Sums(node)
  {
    assert n in Sums(node);
  }

  lemma IsAnIdentity(node: map<NodeId, Node>, n: NodeId)
    requires n in node && node[n].op.Identity?
    ensures Identities(node) - {n} < Identities(node)
  {
    assert n in Identities(node);
  }

  ghost predicate Checked(node: map<NodeId, Node>, live: seq<NodeId>, i: nat, pinned: set<ValueId>) {
    i <= |live| && forall j :: 0 <= j < i && live[j] in node ==> !Simplifiable(node[live[j]], pinned)
  }

  /** No Sum is left, and every Identity has an end that is not temporary. */
  ghost predicate Finished(node: map<NodeId, Node>, pinned: set<ValueId>) {
    forall n :: n in node ==> !Simplifiable(node[n], pinned)
  }

  /** One pass over the nodes that are live at its start. */
  method Pass(graph: Graph, pinned: set<ValueId>) returns (replaced: bool)
    requires Sound(graph) && forall v :: v in pinned ==> v < graph.nextValue
    modifies graph
    ensures Sound(graph) && Keeps(old(graph.node), graph.node, pinned) && graph.nextValue >= old(graph.nextValue)
    ensures replaced ==> Less(graph.node, old(graph.node))
    ensures !replaced ==> graph.node == old(graph.node) && Finished(graph.node, pinned)
  {
    hide graph.Valid, Acyclic, Shaped, Keeps, Less, Simplifiable;
    var live := GetLiveNodes(graph);
    ghost var before := graph.node;
    KeepsSelf(before, pinned);
    replaced := false;
    var i := 0;
    while i < |live|
      modifies graph
      invariant 0 <= i <= |live| && Sound(graph) && Keeps(before, graph.node, pinned)
      invariant graph.nextValue >= old(graph.nextValue)
      invariant if replaced then Less(graph.node, before)
                else graph.node == before && Checked(graph.node, live, i, pinned)
    {
      if live[i] in graph.node {
        ghost var node := graph.node;
        var done := SimplifyNode(graph, live[i], pinned);
        KeepsTrans(before, node, graph.node, pinned);
        if done {
          if replaced { LessTrans(graph.node, node, before); }
          replaced := true;
        }
      }
      i := i + 1;
    }
    if !replaced {
      forall n | n in graph.node ensures !Simplifiable(graph.node[n], pinned) {
        assert n in SetOf(live);
        var j :| 0 <= j < |live| && live[j] == n;
      }
    }
  }

  /** Simplify with the simplifiers of Identity and Sum.  `pinned` are the values that are not
      temporary: inputs, outputs and null values. */
  method Simplify(graph: Graph, pinned: set<ValueId>)
    requires Sound(graph) && forall v :: v in pinned ==> v < graph.nextValue
    modifies graph
    ensures Sound(graph) && Keeps(old(graph.node), graph.node, pinned) && Finished(graph.node, pinned)
  {
    hide Sound, Keeps, Finished;
    ghost var before := graph.node;
    KeepsSelf(before, pinned);
    var replaced := true;
    while replaced
      modifies graph
      invariant Sound(graph) && Keeps(before, graph.node, pinned) && forall v :: v in pinned ==> v < graph.nextValue
      invariant !replaced ==> Finished(graph.node, pinned)
      decreases Sums(graph.node), Identities(graph.node), replaced
    {
      ghost var node := graph.node;
      replaced := Pass(graph, pinned);
      KeepsTrans(before, node, graph.node, pinned);
    }
  }
}
