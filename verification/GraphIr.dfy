/** The mutable graph: compiler/graph.cc, compiler/node.cc and compiler/value.cc.
    A node that is detached leaves `node` but stays in the list `nodes`. */
module GraphIr {
  import opened Ir

  /** std::find and erase. */
  function RemoveFirst<T(==)>(s: seq<T>, x: T): (r: seq<T>)
    requires x in s
    ensures multiset(r) == multiset(s) - multiset{x} && |r| == |s| - 1
  {
    if s[0] == x then
      assert s == [s[0]] + s[1..];
      s[1..]
    else
      assert s == [s[0]] + s[1..];
      [s[0]] + RemoveFirst(s[1..], x)
  }

  function IndexOf<T(==)>(s: seq<T>, x: T): (i: nat)
    requires x in s
    ensures i < |s| && s[i] == x && x !in s[..i]
  {
    if s[0] == x then 0
    else
      var i := IndexOf(s[1..], x);
      assert s[..i + 1 + 1 - 1] == [s[0]] + s[1..][..i];
      i + 1
  }

  /** `node` with the inputs of `n` replaced. */
  ghost function WithInputs(node: map<NodeId, Node>, n: NodeId, inputs: seq<ValueId>): map<NodeId, Node>
    requires n in node
  {
    node[n := node[n].(inputs := inputs)]
  }

  ghost predicate DefUse(node: map<NodeId, Node>, users: map<ValueId, seq<NodeId>>) {
    Snapshot(node, users, map[], {}).DefUse()
  }

  function UsersOf(users: map<ValueId, seq<NodeId>>, v: ValueId): seq<NodeId> {
    if v in users then users[v] else []
  }

  /** Node `m` is listed among the users of `w` once for every time it reads `w`. */
  ghost predicate Counted(node: map<NodeId, Node>, users: map<ValueId, seq<NodeId>>, m: NodeId, w: ValueId) {
    multiset(UsersOf(users, w))[m] == if m in node then multiset(node[m].inputs)[w] else 0
  }

  lemma UsesCounted(node: map<NodeId, Node>, users: map<ValueId, seq<NodeId>>, m: NodeId, w: ValueId)
    requires DefUse(node, users)
    ensures Counted(node, users, m, w)
  {
    var g := Snapshot(node, users, map[], {});
    assert multiset(g.Users(w))[m] == g.Reads(m, w);
  }

  lemma CountedUses(node: map<NodeId, Node>, users: map<ValueId, seq<NodeId>>)
    requires forall m: NodeId, w: ValueId :: Counted(node, users, m, w)
    ensures DefUse(node, users)
  {
    var g := Snapshot(node, users, map[], {});
    forall m: NodeId, w: ValueId ensures multiset(g.Users(w))[m] == g.Reads(m, w) {
      assert Counted(node, users, m, w);
    }
  }

  lemma MoreUsers(node: map<NodeId, Node>, users: map<ValueId, seq<NodeId>>, n: NodeId, v: ValueId)
    requires n in node && DefUse(node, users)
    ensures DefUse(WithInputs(node, n, node[n].inputs + [v]), users[v := UsersOf(users, v) + [n]])
  {
    hide DefUse, Counted, WithInputs, UsersOf;
    var node', users' := WithInputs(node, n, node[n].inputs + [v]), users[v := UsersOf(users, v) + [n]];
    forall m: NodeId, w: ValueId ensures Counted(node', users', m, w) {
      UsesCounted(node, users, m, w);
      MoreCounted(node, users, n, v, m, w);
    }
    CountedUses(node', users');
  }

  lemma MoreCounted(node: map<NodeId, Node>, users: map<ValueId, seq<NodeId>>, n: NodeId, v: ValueId, m: NodeId,
                    w: ValueId)
    requires n in node && Counted(node, users, m, w)
    ensures Counted(WithInputs(node, n, node[n].inputs + [v]), users[v := UsersOf(users, v) + [n]], m, w)
  {
  }

  lemma FewerUsers(node: map<NodeId, Node>, users: map<ValueId, seq<NodeId>>, n: NodeId, v: ValueId, rest: seq<ValueId>)
    requires n in node && DefUse(node, users)
    requires multiset(node[n].inputs) == multiset(rest) + multiset{v}
    ensures n in UsersOf(users, v)
    ensures DefUse(WithInputs(node, n, rest), users[v := RemoveFirst(UsersOf(users, v), n)])
  {
    hide DefUse, Counted, WithInputs, UsersOf, RemoveFirst;
    UsesCounted(node, users, n, v);
    CountedReader(node, users, n, v, rest);
    var node', users' := WithInputs(node, n, rest), users[v := RemoveFirst(UsersOf(users, v), n)];
    forall m: NodeId, w: ValueId ensures Counted(node', users', m, w) {
      UsesCounted(node, users, m, w);
      FewerCounted(node, users, n, v, rest, m, w);
    }
    CountedUses(node', users');
  }

  lemma CountedReader(node: map<NodeId, Node>, users: map<ValueId, seq<NodeId>>, n: NodeId, v: ValueId,
                      rest: seq<ValueId>)
    requires n in node && Counted(node, users, n, v) && multiset(node[n].inputs) == multiset(rest) + multiset{v}
    ensures n in UsersOf(users, v)
  {
    hide UsersOf;
    assert multiset(UsersOf(users, v))[n] > 0;
  }

  lemma FewerCounted(node: map<NodeId, Node>, users: map<ValueId, seq<NodeId>>, n: NodeId, v: ValueId,
                     rest: seq<ValueId>, m: NodeId, w: ValueId)
    requires n in node && n in UsersOf(users, v) && Counted(node, users, m, w)
    requires multiset(node[n].inputs) == multiset(rest) + multiset{v}
    ensures Counted(WithInputs(node, n, rest), users[v := RemoveFirst(UsersOf(users, v), n)], m, w)
  {
    hide RemoveFirst, UsersOf;
    var r := RemoveFirst(UsersOf(users, v), n);
    UsersNow(users, v, r, w);
    assert multiset(r) == multiset(UsersOf(users, v)) - multiset{n};
    if m == n { assert multiset(node[n].inputs)[w] == multiset(rest)[w] + (if w == v then 1 else 0); }
  }

  lemma UsersNow(users: map<ValueId, seq<NodeId>>, v: ValueId, r: seq<NodeId>, w: ValueId)
    ensures UsersOf(users[v := r], w) == if w == v then r else UsersOf(users, w)
  {
  }

  /** Only the inputs of the nodes matter. */
  lemma SameInputs(node: map<NodeId, Node>, other: map<NodeId, Node>, users: map<ValueId, seq<NodeId>>)
    requires DefUse(node, users)
    requires forall n :: n in node ==> n in other && other[n].inputs == node[n].inputs
    requires forall n :: n in other && n !in node ==> other[n].inputs == []
    ensures DefUse(other, users)
  {
    hide DefUse, UsersOf;
    forall m: NodeId, w: ValueId ensures Counted(other, users, m, w) { UsesCounted(node, users, m, w); }
    CountedUses(other, users);
  }

  lemma WithoutNode(node: map<NodeId, Node>, users: map<ValueId, seq<NodeId>>, n: NodeId)
    requires DefUse(node, users) && n in node && node[n].inputs == []
    ensures DefUse(node - {n}, users)
  {
    hide DefUse, UsersOf;
    forall m: NodeId, w: ValueId ensures Counted(node - {n}, users, m, w) { UsesCounted(node, users, m, w); }
    CountedUses(node - {n}, users);
  }

  /** `producer_` names the writer of every value, but for nodes about to be detached, whose
      outputs may have been given to another node already. */
  ghost predicate Written(node: map<NodeId, Node>, producer: map<ValueId, NodeId>, dying: set<NodeId>) {
    && (forall n, i :: n in node && n !in dying && 0 <= i < |node[n].outputs| ==>
          node[n].outputs[i] in producer && producer[node[n].outputs[i]] == n)
    && (forall n :: n in node ==> Distinct(node[n].outputs))
    && (forall v :: v in producer && producer[v] in node ==> v in node[producer[v]].outputs)
  }

  lemma SameOutputs(node: map<NodeId, Node>, other: map<NodeId, Node>, producer: map<ValueId, NodeId>,
                    dying: set<NodeId>)
    requires Written(node, producer, dying) && node.Keys == other.Keys
    requires forall n :: n in node ==> other[n].outputs == node[n].outputs
    ensures Written(other, producer, dying)
  {
  }

  /** Ids at or above the two counters are unused. */
  ghost predicate Below(node: map<NodeId, Node>, producer: map<ValueId, NodeId>, nextNode: nat, nextValue: nat) {
    && (forall n :: n in node ==> n < nextNode && BelowNode(node[n], nextValue))
    && (forall v :: v in producer ==> v < nextValue && producer[v] < nextNode)
  }

  ghost predicate BelowNode(n: Node, nextValue: nat) {
    && (forall v :: v in n.inputs ==> v < nextValue)
    && (forall v :: v in n.outputs ==> v < nextValue)
  }

  /** Every producer is attached. */
  ghost predicate NoStale(node: map<NodeId, Node>, producer: map<ValueId, NodeId>) {
    forall v :: v in producer ==> producer[v] in node
  }

  class Graph {
    var node: map<NodeId, Node>
    var nodes: seq<NodeId>
    var users: map<ValueId, seq<NodeId>>
    var producer: map<ValueId, NodeId>
    var nextNode: nat
    var nextValue: nat

    /** `dying` are nodes on their way to Detach. */
    ghost predicate Valid(dying: set<NodeId>)
      reads this
    {
      && dying <= node.Keys
      && DefUse(node, users)
      && Written(node, producer, dying)
      && Below(node, producer, nextNode, nextValue)
    }

    constructor ()
      ensures Valid({}) && node == map[] && nodes == [] && nextNode == nextValue == 0 && producer == map[]
    {
      node, nodes, users, producer, nextNode, nextValue := map[], [], map[], map[], 0, 0;
    }

    function Users(v: ValueId): seq<NodeId>
      reads this
    {
      UsersOf(users, v)
    }

    method AddValue(ghost dying: set<NodeId>) returns (v: ValueId)
      requires Valid(dying)
      modifies this`nextValue
      ensures v == old(nextValue) && nextValue == v + 1 && Valid(dying)
    {
      v := nextValue;
      nextValue := nextValue + 1;
    }

    /** Node::AddInput. */
    method AddInput(n: NodeId, v: ValueId, ghost dying: set<NodeId>)
      requires Valid(dying) && n in node && v < nextValue
      modifies this`node, this`users
      ensures Valid(dying) && node == WithInputs(old(node), n, old(node)[n].inputs + [v])
    {
      MoreUsers(node, users, n, v);
      node := node[n := node[n].(inputs := node[n].inputs + [v])];
      users := users[v := Users(v) + [n]];
    }

    /** Node::AddOutput at position `index`. */
    method AddOutput(n: NodeId, v: ValueId, index: nat, ghost dying: set<NodeId>)
      requires Valid(dying) && n in node && n !in dying && v < nextValue
      requires v !in producer && index <= |node[n].outputs|
      requires forall m :: m in node ==> v !in node[m].outputs
      modifies this`node, this`producer
      ensures Valid(dying) && producer == old(producer)[v := n]
      ensures node == old(node)[n := old(node)[n].(
        outputs := old(node)[n].outputs[..index] + [v] + old(node)[n].outputs[index..])]
    {
      var outputs := node[n].outputs[..index] + [v] + node[n].outputs[index..];
      InsertDistinct(node[n].outputs, v, index);
      hide DefUse, Written, Below, Distinct;
      OutputAdded(node, producer, dying, n, outputs, v, nextNode, nextValue);
      SameInputs(node, node[n := node[n].(outputs := outputs)], users);
      node := node[n := node[n].(outputs := outputs)];
      producer := producer[v := n];
    }

    /** Graph::AddNode. */
    method AddNode(op: Op, inputs: seq<ValueId>, outputs: seq<ValueId>, ghost dying: set<NodeId>) returns (n: NodeId)
      requires Valid(dying) && Distinct(outputs)
      requires BelowNode(Node(op, inputs, outputs), nextValue)
      requires forall v :: v in outputs ==> Free(node, producer, dying, v)
      modifies this`node, this`nodes, this`users, this`producer, this`nextNode
      ensures Valid(dying) && n == old(nextNode) && n !in old(node) && n !in dying
      ensures node == old(node)[n := Node(op, inputs, outputs)]
      ensures nodes == old(nodes) + [n]
      ensures forall v :: v in producer <==> v in old(producer) || v in outputs
      ensures forall v :: v in producer ==> producer[v] == if v in outputs then n else old(producer)[v]
    {
      hide DefUse, Written;
      n := nextNode;
      nextNode := nextNode + 1;
      ghost var before := node;
      SameInputs(before, before[n := Node(op, [], outputs)], users);
      var i := 0;
      while i < |inputs|
        modifies this`users
        invariant 0 <= i <= |inputs|
        invariant DefUse(before[n := Node(op, inputs[..i], outputs)], users)
      {
        MoreUsers(before[n := Node(op, inputs[..i], outputs)], users, n, inputs[i]);
        NewInput(before, n, op, inputs, outputs, i);
        users := users[inputs[i] := Users(inputs[i]) + [n]];
        i := i + 1;
      }
      assert inputs[..i] == inputs;
      var k := 0;
      while k < |outputs|
        modifies this`producer
        invariant 0 <= k <= |outputs|
        invariant forall v :: v in producer <==> v in old(producer) || v in outputs[..k]
        invariant forall v :: v in producer ==> producer[v] == if v in outputs[..k] then n else old(producer)[v]
      {
        producer := producer[outputs[k] := n];
        k := k + 1;
      }
      assert outputs[..k] == outputs;
      node := node[n := Node(op, inputs, outputs)];
      nodes := nodes + [n];
      WrittenByNew(before, old(producer), producer, dying, n, Node(op, inputs, outputs), nextNode - 1, nextValue);
    }

    lemma NewInput(before: map<NodeId, Node>, n: NodeId, op: Op, inputs: seq<ValueId>, outputs: seq<ValueId>, i: nat)
      requires i < |inputs|
      ensures
        WithInputs(before[n := Node(op, inputs[..i], outputs)], n, inputs[..i] + [inputs[i]])
        == before[n := Node(op, inputs[..i + 1], outputs)]
    {
      assert inputs[..i] + [inputs[i]] == inputs[..i + 1];
    }

    /** Node::Detach. */
    method Detach(n: NodeId, ghost dying: set<NodeId>)
      requires Valid(dying) && n in node
      modifies this`node, this`users
      ensures Valid(dying - {n}) && node == old(node) - {n}
    {
      var inputs, i := node[n].inputs, 0;
      ghost var before := node;
      assert WithInputs(before, n, inputs[0..]) == before;
      while i < |inputs|
        modifies this`users
        invariant 0 <= i <= |inputs|
        invariant DefUse(WithInputs(before, n, inputs[i..]), users)
      {
        assert inputs[i..] == [inputs[i]] + inputs[i + 1..];
        assert WithInputs(WithInputs(before, n, inputs[i..]), n, inputs[i + 1..]) == WithInputs(before, n,
                          inputs[i + 1..]);
        FewerUsers(WithInputs(before, n, inputs[i..]), users, n, inputs[i], inputs[i + 1..]);
        users := users[inputs[i] := RemoveFirst(Users(inputs[i]), n)];
        i := i + 1;
      }
      assert inputs[i..] == [];
      WithoutNode(WithInputs(before, n, []), users, n);
      node := node - {n};
      assert node == WithInputs(before, n, []) - {n};
    }

    /** Node::ReplaceInput: the first input `f` becomes `t`. */
    method ReplaceInput(n: NodeId, f: ValueId, t: ValueId, ghost dying: set<NodeId>)
      requires Valid(dying) && n in node && f in node[n].inputs && t < nextValue
      modifies this`node, this`users
      ensures Valid(dying)
      ensures node == WithInputs(old(node), n, old(node)[n].inputs[IndexOf(old(node)[n].inputs, f) := t])
      ensures multiset(Users(f)) == multiset(old(Users(f))) - multiset{n} + if f == t then multiset{n} else multiset{}
      ensures forall v :: v != f && v != t ==> Users(v) == old(Users(v))
    {
      hide RemoveFirst, IndexOf, DefUse, Written, Below;
      var inputs := node[n].inputs;
      var found := IndexOf(inputs, f);
      InputRenamed(node, users, n, f, t);
      SameOutputs(node, WithInputs(node, n, inputs[found := t]), producer, dying);
      BelowInputs(node, producer, nextNode, nextValue, n, found, t);
      node := node[n := node[n].(inputs := inputs[found := t])];
      users := users[f := RemoveFirst(Users(f), n)];
      users := users[t := Users(t) + [n]];
    }

    /** Node::ReplaceOutput: output `f` becomes `t`, and nobody writes `f` any more. */
    method ReplaceOutput(n: NodeId, f: ValueId, t: ValueId, ghost dying: set<NodeId>)
      requires Valid(dying) && n in node && n !in dying && f in node[n].outputs && t < nextValue
      requires Free(node, producer, {}, t) && t !in node[n].outputs
      modifies this`node, this`producer
      ensures Valid(dying)
      ensures node == old(node)[n := old(node)[n].(outputs :=
        old(node)[n].outputs[IndexOf(old(node)[n].outputs, f) := t])]
      ensures producer == (old(producer) - {f})[t := n]
    {
      var outputs := node[n].outputs;
      var found := IndexOf(outputs, f);
      ghost var before := node;
      node := node[n := node[n].(outputs := outputs[found := t])];
      producer := (producer - {f})[t := n];
      SameInputs(before, node, users);
      OutputRenamed(before, old(producer), dying, n, f, t);
    }
  }

  /** No attached node, but for dying ones, writes `v`. */
  ghost predicate Free(node: map<NodeId, Node>, producer: map<ValueId, NodeId>, dying: set<NodeId>, v: ValueId) {
    v in producer ==> producer[v] in dying || producer[v] !in node
  }

  lemma WrittenByNew(node: map<NodeId, Node>, producer: map<ValueId, NodeId>, producer': map<ValueId, NodeId>,
                     dying: set<NodeId>, n: NodeId, added: Node, nextNode: nat, nextValue: nat)
    requires Written(node, producer, dying) && Below(node, producer, nextNode, nextValue)
    requires n == nextNode && BelowNode(added, nextValue) && Distinct(added.outputs)
    requires forall v :: v in added.outputs ==> Free(node, producer, dying, v)
    requires forall v :: v in producer' <==> v in producer || v in added.outputs
    requires forall v :: v in producer' ==> producer'[v] == if v in added.outputs then n else producer[v]
    ensures Written(node[n := added], producer', dying) && Below(node[n := added], producer', nextNode + 1, nextValue)
  {
    var node' := node[n := added];
    forall m, i | m in node' && m !in dying && 0 <= i < |node'[m].outputs|
      ensures node'[m].outputs[i] in producer' && producer'[node'[m].outputs[i]] == m
    {
      if m != n {
        var o := node[m].outputs[i];
        assert producer[o] == m;
        assert o in added.outputs ==> Free(node, producer, dying, o);
      }
    }
  }

  lemma BelowUpdate(n: Node, i: nat, t: ValueId, nextValue: nat)
    requires BelowNode(n, nextValue) && i < |n.inputs| && t < nextValue
    ensures BelowNode(n.(inputs := n.inputs[i := t]), nextValue)
  {
    var inputs := n.inputs[i := t];
    forall v | v in inputs ensures v < nextValue {
      var k :| 0 <= k < |inputs| && inputs[k] == v;
      assert n.inputs[k] in n.inputs;
    }
  }

  lemma InputRenamed(node: map<NodeId, Node>, users: map<ValueId, seq<NodeId>>, n: NodeId, f: ValueId, t: ValueId)
    requires n in node && f in node[n].inputs && DefUse(node, users)
    ensures n in UsersOf(users, f)
    ensures
      var less := users[f := RemoveFirst(UsersOf(users, f), n)];
      DefUse(WithInputs(node, n, node[n].inputs[IndexOf(node[n].inputs, f) := t]), less[t := UsersOf(less, t) + [n]])
  {
    hide DefUse, RemoveFirst, IndexOf, UsersOf;
    var inputs := node[n].inputs;
    var rest := RemoveFirst(inputs, f);
    FewerUsers(node, users, n, f, rest);
    var between := WithInputs(node, n, rest);
    var less := users[f := RemoveFirst(UsersOf(users, f), n)];
    MoreUsers(between, less, n, t);
    ReplacedMultiset(inputs, f, t);
    SameReads(WithInputs(between, n, rest + [t]), WithInputs(node, n, inputs[IndexOf(inputs, f) := t]),
              less[t := UsersOf(less, t) + [n]]);
  }

  lemma ReplacedMultiset(inputs: seq<ValueId>, f: ValueId, t: ValueId)
    requires f in inputs
    ensures multiset(RemoveFirst(inputs, f) + [t]) == multiset(inputs[IndexOf(inputs, f) := t])
  {
    hide RemoveFirst, IndexOf;
    assert multiset(RemoveFirst(inputs, f) + [t]) == multiset(RemoveFirst(inputs, f)) + multiset{t};
  }
  lemma OutputRenamed(node: map<NodeId, Node>, producer: map<ValueId, NodeId>, dying: set<NodeId>,
                      n: NodeId, f: ValueId, t: ValueId)
    requires Written(node, producer, dying) && n in node && n !in dying && f in node[n].outputs
    requires Free(node, producer, {}, t) && t !in node[n].outputs
    ensures
      var outputs := node[n].outputs[IndexOf(node[n].outputs, f) := t];
      Written(node[n := node[n].(outputs := outputs)], (producer - {f})[t := n], dying)
  {
    var outputs := node[n].outputs[IndexOf(node[n].outputs, f) := t];
    OutputsRenamed(node[n].outputs, f, t);
    hide IndexOf, Distinct;
    var node', producer' := node[n := node[n].(outputs := outputs)], (producer - {f})[t := n];
    forall m, i | m in node' && m !in dying && 0 <= i < |node'[m].outputs|
      ensures node'[m].outputs[i] in producer' && producer'[node'[m].outputs[i]] == m
    {
      var x := node'[m].outputs[i];
      assert x in node'[m].outputs;
      if m == n && x != t { assert x in node[n].outputs; }
    }
    assert forall v :: v in node[n].outputs ==> v in producer && producer[v] == n;
  }

  lemma OutputsRenamed(s: seq<ValueId>, f: ValueId, t: ValueId)
    requires f in s && t !in s && Distinct(s)
    ensures
      var r := s[IndexOf(s, f) := t];
      Distinct(r) && forall v :: v in r <==> v == t || (v in s && v != f)
  {
    hide IndexOf;
    var k := IndexOf(s, f);
    var r := s[k := t];
    assert forall i :: 0 <= i < |s| ==> s[i] in s;
    assert r[k] == t;
    forall v | v in s && v != f ensures v in r {
      var i :| 0 <= i < |s| && s[i] == v;
      assert r[i] == v;
    }
  }

  /** Equal multisets of inputs are as good as equal inputs. */
  lemma SameReads(node: map<NodeId, Node>, other: map<NodeId, Node>, users: map<ValueId, seq<NodeId>>)
    requires DefUse(node, users) && node.Keys == other.Keys
    requires forall n :: n in node ==> multiset(other[n].inputs) == multiset(node[n].inputs)
    ensures DefUse(other, users)
  {
    var before, after := Snapshot(node, users, map[], {}), Snapshot(other, users, map[], {});
    forall m: NodeId, w: ValueId ensures multiset(after.Users(w))[m] == after.Reads(m, w) {
      assert multiset(before.Users(w))[m] == before.Reads(m, w);
    }
  }

  lemma BelowInputs(node: map<NodeId, Node>, producer: map<ValueId, NodeId>, nextNode: nat, nextValue: nat, n: NodeId,
                    k: nat, t: ValueId)
    requires Below(node, producer, nextNode, nextValue) && n in node && k < |node[n].inputs| && t < nextValue
    ensures Below(WithInputs(node, n, node[n].inputs[k := t]), producer, nextNode, nextValue)
  {
    BelowUpdate(node[n], k, t, nextValue);
  }

  lemma OutputAdded(node: map<NodeId, Node>, producer: map<ValueId, NodeId>, dying: set<NodeId>, n: NodeId,
                    outputs: seq<ValueId>, v: ValueId, nextNode: nat, nextValue: nat)
    requires Written(node, producer, dying) && Below(node, producer, nextNode, nextValue)
    requires n in node && n !in dying && v < nextValue && v !in producer
    requires forall m :: m in node ==> v !in node[m].outputs
    requires Distinct(outputs) && forall x :: x in outputs <==> x in node[n].outputs || x == v
    ensures Written(node[n := node[n].(outputs := outputs)], producer[v := n], dying)
    ensures Below(node[n := node[n].(outputs := outputs)], producer[v := n], nextNode, nextValue)
  {
    var node', producer' := node[n := node[n].(outputs := outputs)], producer[v := n];
    forall m, i | m in node' && m !in dying && 0 <= i < |node'[m].outputs|
      ensures node'[m].outputs[i] in producer' && producer'[node'[m].outputs[i]] == m
    {
      var x := node'[m].outputs[i];
      assert x in node'[m].outputs;
      if x != v { assert x in node[m].outputs; }
    }
  }

  lemma InsertDistinct(s: seq<ValueId>, v: ValueId, index: nat)
    requires Distinct(s) && v !in s && index <= |s|
    ensures Distinct(s[..index] + [v] + s[index..])
    ensures forall x :: x in s[..index] + [v] + s[index..] <==> x in s || x == v
  {
    var r := s[..index] + [v] + s[index..];
    assert s == s[..index] + s[index..];
    DistinctMultiset(s);
    DistinctMultiset(r);
    assert multiset(r) == multiset(s[..index] + s[index..]) + multiset{v};
    assert multiset(s)[v] == 0;
    forall x ensures x in r <==> x in s || x == v {
      assert x in r <==> multiset(r)[x] > 0;
    }
  }
}
