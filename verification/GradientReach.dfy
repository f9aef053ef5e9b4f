/** Which values get a gradient (compiler/gradient.cc, GenerateGradientNodes): of the requested ones
    exactly those that an output depends on through operators with gradients. */
module GradientReach {
  import opened Ir
  import opened GraphIr
  import opened Builder
  import opened Dual
  import opened GradientOps
  import opened ReverseMode
  import opened Gradient
  import Scheduler

  /** `x` is read by the first node of the path, which writes what the next one reads, and so on
      to one of `ys`. */
  ghost predicate Leads(node: map<NodeId, Node>, path: seq<NodeId>, x: ValueId, ys: seq<ValueId>)
    decreases |path|
  {
    if path == [] then x in ys else
      && path[0] in node && Differentiable(node[path[0]].op) && x in node[path[0]].inputs && node[path[0]].outputs != []
      && Leads(node, path[1..], node[path[0]].outputs[0], ys)
  }

  ghost predicate Influences(node: map<NodeId, Node>, x: ValueId, ys: seq<ValueId>) {
    exists path :: Leads(node, path, x, ys)
  }

  lemma LeadsOn(node: map<NodeId, Node>, n: NodeId, x: ValueId, ys: seq<ValueId>)
    requires n in node && Differentiable(node[n].op) && x in node[n].inputs && node[n].outputs != []
    requires Influences(node, node[n].outputs[0], ys)
    ensures Influences(node, x, ys)
  {
    var path :| Leads(node, path, node[n].outputs[0], ys);
    assert ([n] + path)[1..] == path;
    assert Leads(node, [n] + path, x, ys);
  }

  lemma {:induction false} TouchedInfluences(g: Snapshot, ids: seq<NodeId>, ys: seq<ValueId>, v: ValueId)
    requires (forall n :: n in ids ==> n in g.node) && v in Touched(NodesOf(g, ids), SetOf(ys))
    ensures Influences(g.node, v, ys)
    decreases |ids|
  {
    if ids == [] {
      assert Leads(g.node, [], v, ys);
    } else {
      var k := |ids| - 1;
      assert NodesOf(g, ids)[..k] == NodesOf(g, ids[..k]);
      var before, n := Touched(NodesOf(g, ids[..k]), SetOf(ys)), ids[k];
      if v in before {
        TouchedInfluences(g, ids[..k], ys, v);
      } else {
        assert n in ids;
        TouchedInfluences(g, ids[..k], ys, g.node[n].outputs[0]);
        LeadsOn(g.node, n, v, ys);
      }
    }
  }

  lemma {:induction false} TouchedMore(g: Snapshot, ids: seq<NodeId>, keys: set<ValueId>, k: nat, m: nat)
    requires (forall n :: n in ids ==> n in g.node) && k <= m <= |ids|
    ensures Touched(NodesOf(g, ids[..k]), keys) <= Touched(NodesOf(g, ids[..m]), keys)
    decreases m
  {
    if k < m {
      TouchedMore(g, ids, keys, k, m - 1);
      assert NodesOf(g, ids[..m])[..m - 1] == NodesOf(g, ids[..m - 1]);
    }
  }

  /** What begins a path to `ys` is needed for them. */
  lemma {:induction false} LeadsIsNeeded(g: Snapshot, ys: seq<ValueId>, needed: set<NodeId>, path: seq<NodeId>,
                                         x: ValueId)
    requires g.Ssa() && Scheduler.Sufficient(g, ys, needed) && path != [] && Leads(g.node, path, x, ys)
    ensures path[0] in needed
    decreases |path|
  {
    var n := path[0];
    var o := g.node[n].outputs[0];
    assert o in g.producer && g.producer[o] == n;
    if |path| > 1 {
      LeadsIsNeeded(g, ys, needed, path[1..], o);
      assert o in g.node[path[1]].inputs;
    }
  }

  /** All nodes that are gone through and read `v` are among the first `m`. */
  ghost predicate ReadBefore(g: Snapshot, ids: seq<NodeId>, v: ValueId, m: nat) {
    forall i :: m <= i < |ids| && ids[i] in g.node ==> v !in g.node[ids[i]].inputs
  }

  lemma ReadersFirst(g: Snapshot, ids: seq<NodeId>, j: nat, v: ValueId)
    requires ReadLater(g, Reversed(ids)) && j < |ids| && ids[j] in g.node && v in g.node[ids[j]].outputs
    ensures ReadBefore(g, ids, v, j)
  {
    var back, top := Reversed(ids), |ids| - 1;
    forall i | j <= i < |ids| && ids[i] in g.node ensures v !in g.node[ids[i]].inputs {
      assert back[top - i] == ids[i] && back[top - j] == ids[j];
      assert Unread(g, back[top - i], back[top - j]);
    }
  }

  /** A value that depends on `xs` and leads to `ys` has a gradient once its readers are done. */
  lemma {:induction false} LeadsTouched(g: Snapshot, xs: seq<ValueId>, ys: seq<ValueId>, needed: set<NodeId>,
                                        ids: seq<NodeId>, path: seq<NodeId>, v: ValueId, m: nat)
    requires g.DefUse() && g.Ssa() && Chosen(g, xs, ys, needed, ids) && (forall n :: n in ids ==> n in g.node)
    requires Leads(g.node, path, v, ys) && m <= |ids| && ReadBefore(g, ids, v, m)
    requires v in xs || (v in g.producer && Reachable(g, xs, g.producer[v]))
    ensures v in Touched(NodesOf(g, ids[..m]), SetOf(ys))
    decreases |path|
  {
    hide Reachable, ReadLater, Scheduler.Sufficient, ReadBefore;
    if path == [] {
      TouchedMore(g, ids, SetOf(ys), 0, m);
      assert NodesOf(g, ids[..0]) == [];
    } else {
      var n := path[0];
      var o := g.node[n].outputs[0];
      LeadsIsNeeded(g, ys, needed, path, v);
      ReaderIsReachable(g, xs, v, n);
      var j :| 0 <= j < |ids| && ids[j] == n;
      ReadersFirst(g, ids, j, o);
      OutputIsReachable(g, xs, n);
      LeadsTouched(g, xs, ys, needed, ids, path[1..], o, j);
      StepTouched(g, ids, SetOf(ys), j, v);
      ReadEarly(g, ids, v, m, j);
      TouchedMore(g, ids, SetOf(ys), j + 1, m);
    }
  }

  lemma ReadEarly(g: Snapshot, ids: seq<NodeId>, v: ValueId, m: nat, j: nat)
    requires ReadBefore(g, ids, v, m) && j < |ids| && ids[j] in g.node && v in g.node[ids[j]].inputs
    ensures j < m
  {
  }

  lemma StepTouched(g: Snapshot, ids: seq<NodeId>, keys: set<ValueId>, j: nat, v: ValueId)
    requires (forall n :: n in ids ==> n in g.node) && j < |ids| && Differentiable(g.node[ids[j]].op)
    requires g.node[ids[j]].outputs != []
    requires g.node[ids[j]].outputs[0] in Touched(NodesOf(g, ids[..j]), keys) && v in g.node[ids[j]].inputs
    ensures v in Touched(NodesOf(g, ids[..j + 1]), keys)
  {
    assert NodesOf(g, ids[..j + 1])[..j] == NodesOf(g, ids[..j]);
  }

  lemma ReaderIsReachable(g: Snapshot, xs: seq<ValueId>, v: ValueId, n: NodeId)
    requires g.DefUse() && g.Ssa() && n in g.node && v in g.node[n].inputs
    requires v in xs || (v in g.producer && Reachable(g, xs, g.producer[v]))
    ensures Reachable(g, xs, n)
  {
    assert multiset(g.Users(v))[n] == g.Reads(n, v);
    assert multiset(g.node[n].inputs)[v] > 0;
    assert n in multiset(g.Users(v));
    ReachableUser(g, xs, v, n);
  }

  lemma OutputIsReachable(g: Snapshot, xs: seq<ValueId>, n: NodeId)
    requires g.Ssa() && n in g.node && Reachable(g, xs, n) && g.node[n].outputs != []
    ensures g.node[n].outputs[0] in g.producer && Reachable(g, xs, g.producer[g.node[n].outputs[0]])
  {
    hide Reachable;
    assert g.node[n].outputs[0] in g.producer && g.producer[g.node[n].outputs[0]] == n;
  }

  /** Of the requested values exactly those get a gradient that some output depends on. */
  lemma GradientsReach(g: Snapshot, xs: seq<ValueId>, ys: seq<ValueId>, needed: set<NodeId>, ids: seq<NodeId>,
                       x: ValueId)
    requires g.DefUse() && g.Ssa() && Chosen(g, xs, ys, needed, ids) && (forall n :: n in ids ==> n in g.node)
    requires x in xs
    ensures x in Touched(NodesOf(g, ids), SetOf(ys)) <==> Influences(g.node, x, ys)
  {
    hide Touched, Chosen, g.DefUse;
    if x in Touched(NodesOf(g, ids), SetOf(ys)) {
      TouchedInfluences(g, ids, ys, x);
    }
    if Influences(g.node, x, ys) {
      var path :| Leads(g.node, path, x, ys);
      LeadsTouched(g, xs, ys, needed, ids, path, x, |ids|);
      assert ids[..|ids|] == ids;
    }
  }

  /** Of `xs` exactly the values that some output depends on have gradients. */
  ghost predicate AllReach(node: map<NodeId, Node>, grad: Grads, xs: seq<ValueId>, ys: seq<ValueId>) {
    forall x :: x in xs ==> (x in grad <==> Influences(node, x, ys))
  }

  lemma AllReachNow(g: Snapshot, inputs: seq<ValueId>, xs: seq<ValueId>, ys: seq<ValueId>, needed: set<NodeId>,
                    ids: seq<NodeId>, first: Grads, grad: Grads)
    requires Complete(g, inputs) && Chosen(g, xs, ys, needed, ids) && forall n :: n in ids ==> n in g.node
    requires first.Keys == SetOf(ys) && grad.Keys == Touched(NodesOf(g, ids), first.Keys)
    ensures AllReach(g.node, grad, xs, ys)
  {
    hide Chosen, Touched, Influences;
    forall x | x in xs ensures x in grad <==> Influences(g.node, x, ys) {
      GradientsReach(g, xs, ys, needed, ids, x);
      assert x in grad.Keys <==> x in grad;
    }
  }
}
