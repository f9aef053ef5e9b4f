/** `ClassifyValues` of compiler/topology.cc: which values a set of nodes takes in, hands
    out, and keeps to itself. */
module ClassifyValues {
  import opened Ir
  import opened Worklist

  ghost predicate ReadBy(node: map<NodeId, Node>, group: set<NodeId>, v: ValueId) {
    exists n :: n in group && n in node && v in node[n].inputs
  }

  ghost predicate WrittenBy(node: map<NodeId, Node>, group: set<NodeId>, v: ValueId) {
    exists n :: n in group && n in node && v in node[n].outputs
  }

  ghost predicate UsedOutside(node: map<NodeId, Node>, group: set<NodeId>, v: ValueId) {
    exists n :: n in node && n !in group && v in node[n].inputs
  }

  /** The three classes: read but not written; written and wanted outside; the rest. */
  ghost predicate Classified(node: map<NodeId, Node>, results: set<ValueId>, group: set<NodeId>,
                             inputs: set<ValueId>, outputs: set<ValueId>, temps: set<ValueId>) {
    && (forall v :: v in inputs <==> ReadBy(node, group, v) && !WrittenBy(node, group, v))
    && (forall v :: v in outputs <==> WrittenBy(node, group, v) && (v in results || UsedOutside(node, group, v)))
    && (forall v :: v in temps <==> WrittenBy(node, group, v) && v !in results && !UsedOutside(node, group, v))
  }

  /** `Pending` over the users of a value: how many of them are not in the group. */
  lemma UsersLeft(g: Snapshot, group: set<NodeId>, v: ValueId)
    requires g.DefUse()
    ensures Pending(g.Users(v), group) > 0 <==> UsedOutside(g.node, group, v)
  {
    PendingZero(g.Users(v), group);
    forall n ensures n in g.Users(v) <==> n in g.node && v in g.node[n].inputs { UserReads(g, v, n); }
  }

  /** Users not accounted for yet.  The program gives a graph output INT_MAX users, so that
      it is never used up; here it is left out of the count. */
  ghost predicate Remaining(g: Snapshot, outputUsers: map<ValueId, int>, seen: set<NodeId>) {
    forall v :: v in outputUsers ==> outputUsers[v] == Pending(g.Users(v), seen)
  }

  /** Takes the reads of one node off the counts. */
  method CountReads(g: Snapshot, usersIn: map<ValueId, int>, ghost seen: set<NodeId>, n: NodeId)
    returns (outputUsers: map<ValueId, int>)
    requires g.DefUse() && n in g.node && n !in seen && Remaining(g, usersIn, seen)
    ensures outputUsers.Keys == usersIn.Keys && Remaining(g, outputUsers, seen + {n})
  {
    var inputs, i := g.node[n].inputs, 0;
    outputUsers := usersIn;
    while i < |inputs|
      invariant 0 <= i <= |inputs| && outputUsers.Keys == usersIn.Keys
      invariant forall v :: v in outputUsers ==> outputUsers[v] == usersIn[v] - multiset(inputs[..i])[v]
    {
      var v := inputs[i];
      assert inputs[..i + 1] == inputs[..i] + [v];
      if v in outputUsers { outputUsers := outputUsers[v := outputUsers[v] - 1]; }
      i := i + 1;
    }
    assert inputs[..i] == inputs;
    forall v | v in outputUsers
      ensures Pending(g.Users(v), seen + {n}) + multiset(inputs)[v] == Pending(g.Users(v), seen)
    {
      assert g.Reads(n, v) == multiset(g.Users(v))[n];
      PendingStep(g.Users(v), seen, n);
    }
  }

  lemma NobodySeen(users: seq<NodeId>)
    ensures Pending(users, {}) == |users|
  {
    if users != [] { NobodySeen(users[..|users| - 1]); }
  }

  /** First pass: everything read, everything written, and the number of users. */
  method Collect(g: Snapshot, nodes: seq<NodeId>)
    returns (read: set<ValueId>, outputUsers: map<ValueId, int>)
    requires g.DefUse() && forall n :: n in nodes ==> n in g.node
    ensures forall v :: v in read <==> ReadBy(g.node, SetOf(nodes), v)
    ensures forall v :: v in outputUsers <==> WrittenBy(g.node, SetOf(nodes), v)
    ensures Remaining(g, outputUsers, {})
  {
    read, outputUsers := {}, map[];
    var i := 0;
    while i < |nodes|
      invariant 0 <= i <= |nodes|
      invariant forall v :: v in read <==> exists k :: 0 <= k < i && v in g.node[nodes[k]].inputs
      invariant forall v :: v in outputUsers <==> exists k :: 0 <= k < i && v in g.node[nodes[k]].outputs
      invariant forall v :: v in outputUsers ==>
        outputUsers[v] == |g.Users(v)|
    {
      var n := g.node[nodes[i]];
      read := read + SetOf(n.inputs);
      outputUsers := outputUsers + map v | v in n.outputs :: |g.Users(v)|;
      i := i + 1;
    }
    forall v
      ensures v in read <==> ReadBy(g.node, SetOf(nodes), v)
      ensures v in outputUsers <==> WrittenBy(g.node, SetOf(nodes), v)
    {
      if ReadBy(g.node, SetOf(nodes), v) {
        var n :| n in SetOf(nodes) && n in g.node && v in g.node[n].inputs;
        var k :| 0 <= k < |nodes| && nodes[k] == n;
        assert v in g.node[nodes[k]].inputs;
      }
      if WrittenBy(g.node, SetOf(nodes), v) {
        var n :| n in SetOf(nodes) && n in g.node && v in g.node[n].outputs;
        var k :| 0 <= k < |nodes| && nodes[k] == n;
        assert v in g.node[nodes[k]].outputs;
      }
    }
    forall v | v in outputUsers ensures Pending(g.Users(v), {}) == |g.Users(v)| { NobodySeen(g.Users(v)); }
  }

  /** The three sorted lists of the program are sets here: the order is that of the names. */
  method ClassifyValues(g: Snapshot, results: set<ValueId>, nodes: seq<NodeId>)
    returns (inputs: set<ValueId>, outputs: set<ValueId>, temps: set<ValueId>)
    requires g.DefUse() && Distinct(nodes) && forall n :: n in nodes ==> n in g.node
    ensures Classified(g.node, results, SetOf(nodes), inputs, outputs, temps)
  {
    var read, outputUsers := Collect(g, nodes);
    var written := outputUsers.Keys;
    inputs := read - written;
    var i := 0;
    assert SetOf(nodes[..i]) == {};
    while i < |nodes|
      invariant 0 <= i <= |nodes| && outputUsers.Keys == written
      invariant Remaining(g, outputUsers, SetOf(nodes[..i]))
    {
      assert SetOf(nodes[..i + 1]) == SetOf(nodes[..i]) + {nodes[i]};
      outputUsers := CountReads(g, outputUsers, SetOf(nodes[..i]), nodes[i]);
      i := i + 1;
    }
    assert nodes[..i] == nodes;
    outputs := set v | v in outputUsers && (v in results || outputUsers[v] > 0);
    temps := (read + written) - inputs - outputs;
    forall v
      ensures v in outputs <==>
        WrittenBy(g.node, SetOf(nodes), v) && (v in results || UsedOutside(g.node, SetOf(nodes), v))
    {
      UsersLeft(g, SetOf(nodes), v);
    }
  }
}
