/** The lambda `replace_value` of compiler/fusion.cc: inside a group of nodes, one value
    takes the place of another. */
module Renaming {
  import opened Ir
  import opened GraphIr

  type Names = map<ValueId, ValueId>

  function NameOf(names: Names, v: ValueId): ValueId {
    if v in names then names[v] else v
  }

  function RenameSeq(names: Names, s: seq<ValueId>): (r: seq<ValueId>)
    ensures |r| == |s| && forall i :: 0 <= i < |s| ==> r[i] == NameOf(names, s[i])
  {
    seq(|s|, i requires 0 <= i < |s| => NameOf(names, s[i]))
  }

  function RenameNode(names: Names, n: Node): Node {
    Node(n.op, RenameSeq(names, n.inputs), RenameSeq(names, n.outputs))
  }

  function RenameGroup(names: Names, node: map<NodeId, Node>, group: set<NodeId>): map<NodeId, Node> {
    map n | n in node :: if n in group then RenameNode(names, node[n]) else node[n]
  }

  lemma RenamedMember(names: Names, s: seq<ValueId>, x: ValueId)
    ensures x in RenameSeq(names, s) <==> exists y :: y in s && NameOf(names, y) == x
  {
    if x in RenameSeq(names, s) {
      var i :| 0 <= i < |s| && RenameSeq(names, s)[i] == x;
      assert s[i] in s;
    }
    if y :| y in s && NameOf(names, y) == x {
      var i :| 0 <= i < |s| && s[i] == y;
      assert RenameSeq(names, s)[i] == x;
    }
  }

  /** Renaming one more value that is neither an old name nor a new one. */
  lemma RenameMore(names: Names, node: map<NodeId, Node>, group: set<NodeId>, v: ValueId, w: ValueId)
    requires v !in names && forall x :: x in names ==> names[x] != v
    ensures RenameGroup(map[v := w], RenameGroup(names, node, group), group) == RenameGroup(names[v := w], node, group)
  {
    forall n | n in node && n in group
      ensures RenameNode(map[v := w], RenameNode(names, node[n])) == RenameNode(names[v := w], node[n])
    {
      assert RenameSeq(map[v := w], RenameSeq(names, node[n].inputs)) == RenameSeq(names[v := w], node[n].inputs);
      assert RenameSeq(map[v := w], RenameSeq(names, node[n].outputs)) == RenameSeq(names[v := w], node[n].outputs);
    }
  }

  /** Half way through the users of `v`: `rest` are the reads still to be redirected. */
  ghost predicate Redirecting(before: map<NodeId, Node>, node: map<NodeId, Node>, group: set<NodeId>,
                              v: ValueId, w: ValueId, rest: seq<NodeId>) {
    && node.Keys == before.Keys
    && (forall n :: n in node && n !in group ==> node[n] == before[n])
    && (forall n :: n in node && n in group ==> Redirected(before[n], node[n], v, w) && Left(node[n], v, rest, n))
  }

  ghost predicate Redirected(before: Node, now: Node, v: ValueId, w: ValueId) {
    && now.op == before.op && now.outputs == before.outputs
    && RenameSeq(map[v := w], now.inputs) == RenameSeq(map[v := w], before.inputs)
  }

  ghost predicate Left(now: Node, v: ValueId, rest: seq<NodeId>, n: NodeId) {
    multiset(now.inputs)[v] == multiset(rest)[n]
  }

  lemma RedirectOne(before: map<NodeId, Node>, node: map<NodeId, Node>, group: set<NodeId>,
                    v: ValueId, w: ValueId, rest: seq<NodeId>, n: NodeId)
    requires v != w && n in group && n in node && Redirecting(before, node, group, v, w, [n] + rest)
    ensures v in node[n].inputs
    ensures WithInputs(node, n, node[n].inputs[IndexOf(node[n].inputs, v) := w]).Keys == node.Keys
    ensures Redirecting(before, WithInputs(node, n, node[n].inputs[IndexOf(node[n].inputs, v) := w]), group, v, w, rest)
  {
    hide RenameSeq, IndexOf, Redirected, Left;
    assert multiset([n] + rest) == multiset{n} + multiset(rest);
    RedirectNode(before[n], node[n], v, w, [n] + rest, rest, n);
    forall m | m in node && m in group && m != n ensures Left(node[m], v, rest, m) {
      LeftOther(node[m], v, rest, n, m);
    }
  }

  lemma LeftOther(now: Node, v: ValueId, rest: seq<NodeId>, n: NodeId, m: NodeId)
    requires m != n && Left(now, v, [n] + rest, m)
    ensures Left(now, v, rest, m)
  {
    assert multiset([n] + rest) == multiset{n} + multiset(rest);
  }

  lemma RedirectNode(before: Node, now: Node, v: ValueId, w: ValueId, rest: seq<NodeId>, rest': seq<NodeId>, n: NodeId)
    requires v != w && Redirected(before, now, v, w) && Left(now, v, rest, n)
    requires multiset(rest) == multiset{n} + multiset(rest')
    ensures v in now.inputs
    ensures
      var next := now.(inputs := now.inputs[IndexOf(now.inputs, v) := w]);
      Redirected(before, next, v, w) && Left(next, v, rest', n)
  {
    assert multiset(now.inputs)[v] >= 1;
    var inputs: seq<ValueId> := now.inputs[IndexOf(now.inputs, v) := w];
    hide IndexOf;
    assert multiset(inputs) == multiset(now.inputs) - multiset{v} + multiset{w};
    assert RenameSeq(map[v := w], inputs) == RenameSeq(map[v := w], now.inputs);
  }

  lemma RedirectNone(before: map<NodeId, Node>, node: map<NodeId, Node>, group: set<NodeId>,
                     v: ValueId, w: ValueId, rest: seq<NodeId>, n: NodeId)
    requires n !in group && Redirecting(before, node, group, v, w, [n] + rest)
    ensures Redirecting(before, node, group, v, w, rest)
  {
    assert multiset([n] + rest) == multiset{n} + multiset(rest);
    forall m | m in node && m in group
      ensures Redirected(before[m], node[m], v, w) && Left(node[m], v, rest, m)
    {
      assert Left(node[m], v, [n] + rest, m);
    }
  }

  lemma RedirectStart(node: map<NodeId, Node>, users: map<ValueId, seq<NodeId>>, group: set<NodeId>, v: ValueId,
                      w: ValueId)
    requires DefUse(node, users)
    ensures Redirecting(node, node, group, v, w, UsersOf(users, v))
  {
    var g := Snapshot(node, users, map[], {});
    forall n | n in node && n in group ensures Left(node[n], v, UsersOf(users, v), n) {
      assert multiset(g.Users(v))[n] == g.Reads(n, v);
    }
  }

  lemma RedirectDone(before: map<NodeId, Node>, node: map<NodeId, Node>, group: set<NodeId>, v: ValueId, w: ValueId,
                     n: NodeId)
    requires Redirecting(before, node, group, v, w, []) && n in node && n in group
    ensures node[n].inputs == RenameSeq(map[v := w], before[n].inputs)
  {
    assert Redirected(before[n], node[n], v, w) && Left(node[n], v, [], n);
    assert v !in node[n].inputs;
    assert node[n].inputs == RenameSeq(map[v := w], node[n].inputs);
  }

  lemma OutputDone(outputs: seq<ValueId>, v: ValueId, w: ValueId)
    requires Distinct(outputs) && v in outputs
    ensures outputs[IndexOf(outputs, v) := w] == RenameSeq(map[v := w], outputs)
  {
  }

  ghost predicate NewOutputs(before: map<NodeId, Node>, node: map<NodeId, Node>, group: set<NodeId>, v: ValueId,
                             w: ValueId) {
    && node.Keys == before.Keys
    && (forall n :: n in node && n !in group ==> node[n] == before[n])
    && (forall n :: n in node && n in group ==>
          node[n] == before[n].(outputs := RenameSeq(map[v := w], before[n].outputs)))
  }

  ghost predicate NewInputs(before: map<NodeId, Node>, node: map<NodeId, Node>, group: set<NodeId>, v: ValueId,
                            w: ValueId) {
    && node.Keys == before.Keys
    && (forall n :: n in node && n !in group ==> node[n] == before[n])
    && (forall n :: n in node && n in group ==>
          node[n] == before[n].(inputs := RenameSeq(map[v := w], before[n].inputs)))
  }

  lemma NewBoth(before: map<NodeId, Node>, between: map<NodeId, Node>, node: map<NodeId, Node>, group: set<NodeId>,
                v: ValueId, w: ValueId)
    requires NewOutputs(before, between, group, v, w) && NewInputs(between, node, group, v, w)
    ensures node == RenameGroup(map[v := w], before, group) && node.Keys == before.Keys
  {
  }

  lemma StaleAlike(node: map<NodeId, Node>, node': map<NodeId, Node>, producer: map<ValueId, NodeId>)
    requires node'.Keys == node.Keys
    ensures NoStale(node, producer) ==> NoStale(node', producer)
  {
  }

  lemma RedirectStarts(graph: Graph, group: set<NodeId>, v: ValueId, w: ValueId)
    requires graph.Valid({})
    ensures Redirecting(graph.node, graph.node, group, v, w, graph.Users(v))
  {
    hide DefUse, Written, Below, Redirecting;
    RedirectStart(graph.node, graph.users, group, v, w);
  }

  /** The producer of `v`, if it is in the group, writes `w` instead. */
  method ReplaceProducer(graph: Graph, group: set<NodeId>, v: ValueId, w: ValueId)
    requires graph.Valid({}) && group <= graph.node.Keys
    requires w < graph.nextValue && Below(graph.node, graph.producer, graph.nextNode, w) && v < w
    modifies graph`node, graph`producer
    ensures graph.Valid({}) && graph.node.Keys == old(graph.node).Keys
    ensures NoStale(old(graph.node), old(graph.producer)) ==> NoStale(graph.node, graph.producer)
    ensures NewOutputs(old(graph.node), graph.node, group, v, w)
  {
    ghost var before, producer := graph.node, graph.producer;
    if v in graph.producer && graph.producer[v] in group {
      var n := graph.producer[v];
      OutputDone(graph.node[n].outputs, v, w);
      graph.ReplaceOutput(n, v, w, {});
    }
    forall n | n in before && n in group
      ensures graph.node[n] == before[n].(outputs := RenameSeq(map[v := w], before[n].outputs))
    {
      WriterOnly(before, producer, group, v, w, n);
    }
  }

  lemma WriterOnly(node: map<NodeId, Node>, producer: map<ValueId, NodeId>, group: set<NodeId>, v: ValueId, w: ValueId,
                   n: NodeId)
    requires Written(node, producer, {}) && n in node && n in group
    ensures v !in producer || producer[v] != n ==> node[n].outputs == RenameSeq(map[v := w], node[n].outputs)
  {
  }

  method ReplaceValue(graph: Graph, group: set<NodeId>, v: ValueId, w: ValueId)
    requires graph.Valid({}) && group <= graph.node.Keys
    requires w < graph.nextValue && Below(graph.node, graph.producer, graph.nextNode, w) && v < w
    modifies graph`node, graph`users, graph`producer
    ensures graph.Valid({})
    ensures NoStale(old(graph.node), old(graph.producer)) ==> NoStale(graph.node, graph.producer)
    ensures graph.node == RenameGroup(map[v := w], old(graph.node), group)
    ensures graph.node.Keys == old(graph.node).Keys
  {
    hide *;
    ReplaceProducer(graph, group, v, w);
    ghost var before := graph.node;
    var users, i := graph.Users(v), 0;
    RedirectStarts(graph, group, v, w);
    assert users[0..] == users;
    while i < |users|
      modifies graph`node, graph`users
      invariant 0 <= i <= |users| && graph.Valid({})
      invariant group <= graph.node.Keys && graph.node.Keys == before.Keys && w < graph.nextValue
      invariant Redirecting(before, graph.node, group, v, w, users[i..])
    {
      assert users[i..] == [users[i]] + users[i + 1..];
      if users[i] in group {
        RedirectOne(before, graph.node, group, v, w, users[i + 1..], users[i]);
        graph.ReplaceInput(users[i], v, w, {});
      } else {
        RedirectNone(before, graph.node, group, v, w, users[i + 1..], users[i]);
      }
      i := i + 1;
    }
    assert users[i..] == [];
    RedirectAll(before, graph.node, group, v, w);
    StaleAlike(before, graph.node, graph.producer);
    NewBoth(old(graph.node), before, graph.node, group, v, w);
  }

  lemma RedirectAll(before: map<NodeId, Node>, node: map<NodeId, Node>, group: set<NodeId>, v: ValueId, w: ValueId)
    requires Redirecting(before, node, group, v, w, [])
    ensures NewInputs(before, node, group, v, w)
  {
    forall n | n in node && n in group
      ensures node[n] == before[n].(inputs := RenameSeq(map[v := w], before[n].inputs))
    {
      RedirectDone(before, node, group, v, w, n);
      assert Redirected(before[n], node[n], v, w);
    }
  }
}
