/** compiler/fusion.cc, first half: shrinking a set of nodes until it can become one node
    without closing a cycle. */
module FusionCandidates {
  import opened Ir

  ghost predicate ClosedUnderUsers(node: map<NodeId, Node>, nodes: set<NodeId>) {
    forall a, b :: a in nodes && Feeds(node, a, b) ==> b in nodes
  }

  /** `beyond` holds what comes after the group: it takes in every reader outside the group,
      is closed under readers and never leads back. */
  ghost predicate Separated(node: map<NodeId, Node>, group: set<NodeId>, beyond: set<NodeId>) {
    && group !! beyond
    && ClosedUnderUsers(node, beyond)
    && (forall a, b :: a in group && b !in group && Feeds(node, a, b) ==> b in beyond)
  }

  /** No path leaves the group and comes back. */
  ghost predicate Convex(g: Snapshot, group: set<NodeId>) {
    forall p :: g.Chain(p) && p[0] in group && p[|p| - 1] in group ==> forall n :: n in p ==> n in group
  }

  lemma {:induction false} PathStaysOut(g: Snapshot, beyond: set<NodeId>, p: seq<NodeId>, i: nat, j: nat)
    requires g.Chain(p) && ClosedUnderUsers(g.node, beyond) && i <= j < |p| && p[i] in beyond
    ensures p[j] in beyond
    decreases j - i
  {
    if i < j {
      assert g.Edge(p[i], p[i + 1]);
      PathStaysOut(g, beyond, p, i + 1, j);
    }
  }

  lemma {:induction false} PathPrefixInside(g: Snapshot, group: set<NodeId>, beyond: set<NodeId>, p: seq<NodeId>,
                                            i: nat)
    requires Separated(g.node, group, beyond) && g.Chain(p) && p[0] in group && p[|p| - 1] in group && i < |p|
    ensures p[i] in group
  {
    if i > 0 {
      PathPrefixInside(g, group, beyond, p, i - 1);
      assert g.Edge(p[i - 1], p[i]);
      if p[i] !in group { PathStaysOut(g, beyond, p, i, |p| - 1); }
    }
  }

  lemma SeparatedIsConvex(g: Snapshot, group: set<NodeId>, beyond: set<NodeId>)
    requires Separated(g.node, group, beyond)
    ensures Convex(g, group)
  {
    forall p, n | g.Chain(p) && p[0] in group && p[|p| - 1] in group && n in p ensures n in group {
      var i :| 0 <= i < |p| && p[i] == n;
      PathPrefixInside(g, group, beyond, p, i);
    }
  }

  /** The readers of what `n` writes. */
  method Readers(g: Snapshot, n: NodeId) returns (q: seq<NodeId>)
    requires g.DefUse() && n in g.node
    ensures forall m :: m in q <==> Feeds(g.node, n, m)
  {
    var outputs, i := g.node[n].outputs, 0;
    q := [];
    while i < |outputs|
      invariant 0 <= i <= |outputs|
      invariant forall m :: m in q <==> exists k :: 0 <= k < i && m in g.Users(outputs[k])
    {
      q := q + g.Users(outputs[i]);
      i := i + 1;
    }
    forall m ensures m in q <==> Feeds(g.node, n, m) {
      if m in q {
        var k :| 0 <= k < i && m in g.Users(outputs[k]);
        UserReads(g, outputs[k], m);
        assert outputs[k] in g.node[n].outputs;
      }
      if Feeds(g.node, n, m) {
        var v :| v in g.node[n].outputs && v in g.node[m].inputs;
        UserReads(g, v, m);
        var k :| 0 <= k < |outputs| && outputs[k] == v;
        assert m in g.Users(outputs[k]);
      }
    }
  }

  /** What the search for nodes behind the group has to reach. */
  ghost predicate Behind(node: map<NodeId, Node>, cands: set<NodeId>, nodes: set<NodeId>) {
    && (forall a, b :: a in cands && a in node && b !in cands && Feeds(node, a, b) ==> b in nodes)
    && (forall a, b :: a in nodes && a in node && Feeds(node, a, b) ==> b in nodes)
  }

  /** All that comes after a reader outside the candidates. */
  ghost function BehindOf(node: map<NodeId, Node>, cands: set<NodeId>): (r: set<NodeId>)
    ensures Behind(node, cands, r)
  {
    set n | n in node && forall nodes: set<NodeId> | Behind(node, cands, nodes) :: n in nodes
  }

  ghost predicate Reached(g: Snapshot, cands: set<NodeId>, seen: set<NodeId>, q: seq<NodeId>) {
    && seen <= g.node.Keys
    && (forall n :: n in q ==> n in g.node)
    && (forall a, b :: a in cands && a in g.node && b !in cands && Feeds(g.node, a, b) ==> b in seen || b in q)
    && (forall a, b :: a in seen && a in g.node && Feeds(g.node, a, b) ==> b in seen || b in q)
    && (forall nodes: set<NodeId> | Behind(g.node, cands, nodes) :: seen <= nodes && forall n :: n in q ==> n in nodes)
  }

  lemma ReachedNext(g: Snapshot, cands: set<NodeId>, seen: set<NodeId>, q: seq<NodeId>, n: NodeId, more: seq<NodeId>)
    requires Reached(g, cands, seen, q + [n]) && n in g.node
    requires forall m :: m in more <==> Feeds(g.node, n, m)
    ensures Reached(g, cands, seen + {n}, q + more)
  {
    assert (q + [n])[|q|] == n;
    assert forall m :: m in q ==> m in q + [n];
    assert forall m :: m in q + [n] ==> m in q || m == n;
  }

  lemma ReachedSkip(g: Snapshot, cands: set<NodeId>, seen: set<NodeId>, q: seq<NodeId>, n: NodeId)
    requires Reached(g, cands, seen, q + [n]) && n in seen
    ensures Reached(g, cands, seen, q)
  {
    assert forall m :: m in q ==> m in q + [n];
    assert forall m :: m in q + [n] ==> m in q || m == n;
  }

  /** Removes every candidate that lies behind a reader outside the candidates; `seen` is
      the least set behind the candidates. */
  method RejectCyclicNodes(g: Snapshot, cands: set<NodeId>) returns (kept: set<NodeId>, ghost seen: set<NodeId>)
    requires g.DefUse() && cands <= g.node.Keys
    ensures seen == BehindOf(g.node, cands) && kept == cands - seen
    ensures Separated(g.node, kept, seen)
  {
    var q := ReadersOutside(g, cands);
    var found: set<NodeId> := {};
    assert Reached(g, cands, found, q);
    hide Reached, Behind, Feeds, Separated;
    while q != []
      invariant Reached(g, cands, found, q)
      invariant found <= g.node.Keys
      decreases g.node.Keys - found, |q|
    {
      var n := q[|q| - 1];
      assert q == q[..|q| - 1] + [n];
      TopIsNode(g, cands, found, q, n);
      if n in found {
        ReachedSkip(g, cands, found, q[..|q| - 1], n);
        q := q[..|q| - 1];
      } else {
        var more := Readers(g, n);
        ReachedNext(g, cands, found, q[..|q| - 1], n, more);
        found := found + {n};
        q := q[..|q| - 1] + more;
      }
    }
    seen := found;
    kept := cands - found;
    ReachedAll(g, cands, found);
  }

  lemma TopIsNode(g: Snapshot, cands: set<NodeId>, seen: set<NodeId>, q: seq<NodeId>, n: NodeId)
    requires Reached(g, cands, seen, q) && n in q
    ensures n in g.node
  {
  }

  lemma ReachedAll(g: Snapshot, cands: set<NodeId>, seen: set<NodeId>)
    requires Reached(g, cands, seen, []) && cands <= g.node.Keys
    ensures seen == BehindOf(g.node, cands)
    ensures Separated(g.node, cands - seen, seen)
  {
  }

  method ReadersOutside(g: Snapshot, cands: set<NodeId>) returns (q: seq<NodeId>)
    requires g.DefUse() && cands <= g.node.Keys
    ensures forall b :: b in q <==> b !in cands && exists a :: a in cands && Feeds(g.node, a, b)
  {
    q := [];
    var rest := cands;
    while rest != {}
      invariant rest <= cands
      invariant forall b :: b in q <==> b !in cands && exists a :: a in cands - rest && Feeds(g.node, a, b)
    {
      var n :| n in rest;
      var readers := Readers(g, n);
      var outside := NotIn(readers, cands);
      ghost var before := q;
      q := q + outside;
      forall b ensures b in q <==> b !in cands && exists a :: a in cands - (rest - {n}) && Feeds(g.node, a, b) {
        if b in outside { assert Feeds(g.node, n, b); }
      }
      rest := rest - {n};
    }
  }

  function NotIn(s: seq<NodeId>, cands: set<NodeId>): (r: seq<NodeId>)
    ensures forall n :: n in r <==> n in s && n !in cands
  {
    if s == [] then [] else (if s[0] in cands then [] else [s[0]]) + NotIn(s[1..], cands)
  }

  /** Constants that none of the candidates reads leave the group; it stays separated. */
  method RejectUnusedConstants(g: Snapshot, cands: set<NodeId>, ghost beyond: set<NodeId>) returns (kept: set<NodeId>)
    requires g.DefUse() && cands <= g.node.Keys && Separated(g.node, cands, beyond)
    requires forall n :: n in cands && g.node[n].op.Constant? ==> g.node[n].inputs == [] && |g.node[n].outputs| > 0
    ensures kept <= cands
    ensures forall n :: n in cands ==> (n in kept <==>
      !g.node[n].op.Constant? || exists u :: u in g.Users(g.node[n].outputs[0]) && u in cands)
    ensures Separated(g.node, kept, beyond)
  {
    kept := {};
    var rest := cands;
    while rest != {}
      invariant rest <= cands && kept <= cands - rest
      invariant forall n :: n in cands - rest ==> (n in kept <==>
        !g.node[n].op.Constant? || exists u :: u in g.Users(g.node[n].outputs[0]) && u in cands)
    {
      var n :| n in rest;
      rest := rest - {n};
      var isUsed := !g.node[n].op.Constant?;
      if !isUsed {
        isUsed := AnyIn(g.Users(g.node[n].outputs[0]), cands);
      }
      if isUsed { kept := kept + {n}; }
    }
    assert forall b :: b in cands && b !in kept ==> g.node[b].inputs == [];
  }

  predicate AnyIn(s: seq<NodeId>, cands: set<NodeId>)
    ensures AnyIn(s, cands) <==> exists u :: u in s && u in cands
  {
    s != [] && (s[0] in cands || AnyIn(s[1..], cands))
  }
}
