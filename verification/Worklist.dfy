/** Reference counting over the inputs of nodes, shared by the topological sort
    (compiler/topology.cc) and the two schedulers (compiler/scheduler.cc). */
module Worklist {
  import opened Ir

  /** How many inputs are not in `ready` yet, counted with multiplicity. */
  ghost function Pending(inputs: seq<ValueId>, ready: set<ValueId>): nat {
    if inputs == [] then 0
    else
      var last := |inputs| - 1;
      Pending(inputs[..last], ready) + if inputs[last] in ready then 0 else 1
  }

  lemma {:induction false} PendingZero(inputs: seq<ValueId>, ready: set<ValueId>)
    ensures Pending(inputs, ready) == 0 <==> forall v :: v in inputs ==> v in ready
  {
    if inputs != [] {
      var last := |inputs| - 1;
      PendingZero(inputs[..last], ready);
      assert inputs == inputs[..last] + [inputs[last]];
    }
  }

  lemma {:induction false} PendingStep(inputs: seq<ValueId>, ready: set<ValueId>, v: ValueId)
    requires v !in ready
    ensures Pending(inputs, ready + {v}) + multiset(inputs)[v] == Pending(inputs, ready)
  {
    if inputs != [] {
      var last := |inputs| - 1;
      PendingStep(inputs[..last], ready, v);
      assert inputs == inputs[..last] + [inputs[last]];
    }
  }

  /** Node::GetNumActualInputs: inputs that are not null. */
  method GetNumActualInputs(g: Snapshot, n: NodeId) returns (count: nat)
    requires n in g.node
    ensures count == Pending(g.node[n].inputs, g.nulls)
  {
    var inputs, i := g.node[n].inputs, 0;
    count := 0;
    while i < |inputs|
      invariant 0 <= i <= |inputs| && count == Pending(inputs[..i], g.nulls)
    {
      assert inputs[..i + 1][..i] == inputs[..i];
      if inputs[i] !in g.nulls { count := count + 1; }
      i := i + 1;
    }
    assert inputs[..i] == inputs;
  }

  ghost predicate CountsAgree(g: Snapshot, counts: map<NodeId, nat>, ready: set<ValueId>) {
    forall n :: n in counts ==> n in g.node && counts[n] == Pending(g.node[n].inputs, ready)
  }

  /** Counts `v` as ready at all its users; `fired` are the nodes whose last input it was. */
  method MakeValueReady(g: Snapshot, v: ValueId, countsIn: map<NodeId, nat>, ghost ready: set<ValueId>)
    returns (counts: map<NodeId, nat>, fired: seq<NodeId>)
    requires g.DefUse() && CountsAgree(g, countsIn, ready)
    requires v !in ready || g.Users(v) == []
    ensures counts.Keys == countsIn.Keys && CountsAgree(g, counts, ready + {v})
    ensures Fired(countsIn, counts, fired)
    ensures forall n :: n in fired ==> n in g.node && v in g.node[n].inputs
  {
    hide *;
    counts, fired := countsIn, [];
    var users, i := g.Users(v), 0;
    InitialCounts(g, v, countsIn, ready);
    while i < |users|
      invariant 0 <= i <= |users| && counts.Keys == countsIn.Keys
      invariant Midway(g, counts, ready + {v}, users[i..])
      invariant Fired(countsIn, counts, fired)
    {
      var n := users[i];
      assert users[i..] == [n] + users[i + 1..];
      if n in counts {
        CountDown(g, countsIn, counts, fired, ready + {v}, users[i + 1..], n);
        counts := counts[n := counts[n] - 1];
        if counts[n] == 0 { fired := fired + [n]; }
      } else {
        NotCounted(g, counts, ready + {v}, users[i + 1..], n);
      }
      i := i + 1;
    }
    MidwayDone(g, v, countsIn, counts, fired, ready, users[i..]);
  }

  /** `counts` is right but for the users in `rest`. */
  ghost predicate Midway(g: Snapshot, counts: map<NodeId, nat>, ready: set<ValueId>, rest: seq<NodeId>) {
    forall n :: n in counts ==>
      n in g.node && counts[n] == Pending(g.node[n].inputs, ready) + multiset(rest)[n]
  }

  /** `fired` lists, once each, the nodes whose count went down to zero. */
  ghost predicate Fired(before: map<NodeId, nat>, after: map<NodeId, nat>, fired: seq<NodeId>) {
    && Distinct(fired)
    && (forall n :: n in fired <==> n in before && n in after && before[n] != 0 && after[n] == 0)
    && (forall n :: n in before && n in after && before[n] == 0 ==> after[n] == 0)
  }

  lemma CountDown(g: Snapshot, before: map<NodeId, nat>, counts: map<NodeId, nat>, fired: seq<NodeId>,
                  ready: set<ValueId>, rest: seq<NodeId>, n: NodeId)
    requires Midway(g, counts, ready, [n] + rest) && n in counts && counts.Keys == before.Keys
    requires Fired(before, counts, fired)
    ensures counts[n] >= 1 && Midway(g, counts[n := counts[n] - 1], ready, rest)
    ensures Fired(before, counts[n := counts[n] - 1], if counts[n] == 1 then fired + [n] else fired)
  {
    CountDownMidway(g, counts, ready, rest, n);
    hide Midway, Pending;
    CountDownFired(before, counts, fired, n);
  }

  lemma CountDownMidway(g: Snapshot, counts: map<NodeId, nat>, ready: set<ValueId>, rest: seq<NodeId>, n: NodeId)
    requires Midway(g, counts, ready, [n] + rest) && n in counts
    ensures counts[n] >= 1 && Midway(g, counts[n := counts[n] - 1], ready, rest)
  {
    hide Pending;
    assert multiset([n] + rest) == multiset{n} + multiset(rest);
  }

  lemma CountDownFired(before: map<NodeId, nat>, counts: map<NodeId, nat>, fired: seq<NodeId>, n: NodeId)
    requires Fired(before, counts, fired) && n in counts && counts.Keys == before.Keys && counts[n] >= 1
    ensures Fired(before, counts[n := counts[n] - 1], if counts[n] == 1 then fired + [n] else fired)
  {
  }

  lemma NotCounted(g: Snapshot, counts: map<NodeId, nat>, ready: set<ValueId>, rest: seq<NodeId>, n: NodeId)
    requires Midway(g, counts, ready, [n] + rest) && n !in counts
    ensures Midway(g, counts, ready, rest)
  {
    assert multiset([n] + rest) == multiset{n} + multiset(rest);
  }

  lemma MidwayDone(g: Snapshot, v: ValueId, before: map<NodeId, nat>, counts: map<NodeId, nat>,
                   fired: seq<NodeId>, ready: set<ValueId>, rest: seq<NodeId>)
    requires CountsAgree(g, before, ready) && Fired(before, counts, fired) && counts.Keys == before.Keys
    requires Midway(g, counts, ready + {v}, rest) && rest == []
    ensures CountsAgree(g, counts, ready + {v})
    ensures forall n :: n in fired ==> n in g.node && v in g.node[n].inputs
  {
    forall n | n in fired ensures n in g.node && v in g.node[n].inputs {
      FiredReads(g, v, before, counts, ready, n);
    }
  }

  lemma InitialCounts(g: Snapshot, v: ValueId, counts: map<NodeId, nat>, ready: set<ValueId>)
    requires g.DefUse() && CountsAgree(g, counts, ready) && (v !in ready || g.Users(v) == [])
    ensures g.Users(v)[0..] == g.Users(v) && Midway(g, counts, ready + {v}, g.Users(v))
    ensures Fired(counts, counts, [])
  {
    forall n | n in counts
      ensures n in g.node && counts[n] == Pending(g.node[n].inputs, ready + {v}) + multiset(g.Users(v))[n]
    {
      assert g.Reads(n, v) == multiset(g.Users(v))[n];
      if v !in ready {
        PendingStep(g.node[n].inputs, ready, v);
      } else {
        assert ready + {v} == ready;
      }
    }
  }

  lemma FiredReads(g: Snapshot, v: ValueId, before: map<NodeId, nat>, after: map<NodeId, nat>,
                   ready: set<ValueId>, n: NodeId)
    requires CountsAgree(g, before, ready) && CountsAgree(g, after, ready + {v})
    requires n in before && n in after && before[n] != 0 && after[n] == 0
    ensures n in g.node && v in g.node[n].inputs
  {
    PendingZero(g.node[n].inputs, ready);
    PendingZero(g.node[n].inputs, ready + {v});
  }

  // ---- what the work list has done so far ----

  /** `v` is available before any node runs, or written by a node of `nodes`. */
  ghost predicate Available(g: Snapshot, inputs: seq<ValueId>, nodes: seq<NodeId>, v: ValueId) {
    v in inputs || (v in g.producer && g.producer[v] in nodes)
  }

  /** Distinct nodes, each after everything it reads. */
  ghost predicate Topological(g: Snapshot, inputs: seq<ValueId>, order: seq<NodeId>) {
    && Distinct(order)
    && forall j :: 0 <= j < |order| ==> order[j] in g.node && Runnable(g, inputs, order[..j], order[j])
  }

  ghost predicate Runnable(g: Snapshot, inputs: seq<ValueId>, earlier: seq<NodeId>, n: NodeId)
    requires n in g.node
  {
    forall v :: v in g.node[n].inputs && v !in g.nulls ==> Available(g, inputs, earlier, v)
  }

  /** Every non-null input of the nodes is a listed input or comes from another of the nodes. */
  ghost predicate Closed(g: Snapshot, inputs: seq<ValueId>, nodes: set<NodeId>) {
    forall n, v :: n in nodes && n in g.node && v in g.node[n].inputs && v !in g.nulls ==>
      v in inputs || (v in g.producer && g.producer[v] in nodes)
  }

  /** `done` values have been counted at their users; `order` are the nodes run so far. */
  ghost predicate Progress(g: Snapshot, inputs: seq<ValueId>, counts: map<NodeId, nat>,
                           done: set<ValueId>, order: seq<NodeId>) {
    && CountsAgree(g, counts, g.nulls + done)
    && Topological(g, inputs, order)
    && (forall j :: 0 <= j < |order| ==> order[j] in counts && counts[order[j]] == 0)
    && (forall v :: v in done ==> Available(g, inputs, order, v))
  }

  /** The inputs of the graph are no node's outputs, and a queued null value has no reader. */
  ghost predicate GoodInputs(g: Snapshot, inputs: seq<ValueId>) {
    && Distinct(inputs)
    && (forall v :: v in inputs ==> v !in g.producer)
    && (forall v :: v in g.nulls && (v in inputs || v in g.producer) ==> g.Users(v) == [])
  }

  /** A node with nothing pending may run next. */
  lemma RunNext(g: Snapshot, inputs: seq<ValueId>, counts: map<NodeId, nat>,
                done: set<ValueId>, order: seq<NodeId>, n: NodeId)
    requires Progress(g, inputs, counts, done, order)
    requires n in counts && counts[n] == 0 && n !in order
    ensures Progress(g, inputs, counts, done, order + [n])
  {
    PendingZero(g.node[n].inputs, g.nulls + done);
    var order' := order + [n];
    assert order'[..|order|] == order;
    forall j | 0 <= j < |order'| ensures order'[j] in g.node && Runnable(g, inputs, order'[..j], order'[j]) {
      if j < |order| { assert order'[..j] == order[..j]; }
    }
  }

  /** Once every produced value has been counted, everything that can run has run. */
  lemma {:induction false} AllRun(g: Snapshot, inputs: seq<ValueId>, counts: map<NodeId, nat>,
                                  done: set<ValueId>, order: seq<NodeId>, rank: map<NodeId, nat>, n: NodeId)
    requires g.Ssa() && Progress(g, inputs, counts, done, order)
    requires Closed(g, inputs, counts.Keys) && g.Ranks(counts.Keys, rank)
    requires forall m :: m in counts && counts[m] == 0 ==> m in order
    requires forall v :: Available(g, inputs, order, v) ==> v in done
    requires n in counts
    ensures n in order
    decreases rank[n]
  {
    forall v | v in g.node[n].inputs ensures v in g.nulls + done {
      if v !in g.nulls && v !in inputs {
        var p := g.producer[v];
        assert g.Edge(p, n);
        AllRun(g, inputs, counts, done, order, rank, p);
        assert Available(g, inputs, order, v);
      }
    }
    PendingZero(g.node[n].inputs, g.nulls + done);
  }

  /** Conversely, a complete order shows that the nodes are closed and have no cycle. */
  lemma OrderIsAcyclic(g: Snapshot, inputs: seq<ValueId>, order: seq<NodeId>, nodes: set<NodeId>)
    requires g.Ssa() && GoodInputs(g, inputs) && Topological(g, inputs, order)
    requires forall n :: n in nodes <==> n in order
    ensures Closed(g, inputs, nodes) && g.AcyclicOn(nodes)
  {
    forall n, v | n in nodes && n in g.node && v in g.node[n].inputs && v !in g.nulls
      ensures v in inputs || (v in g.producer && g.producer[v] in nodes)
    {
      var j :| 0 <= j < |order| && order[j] == n;
      assert Runnable(g, inputs, order[..j], order[j]);
      assert Available(g, inputs, order[..j], v);
    }
    var rank := map n | n in nodes :: IndexOf(order, n);
    forall a, b | a in nodes && b in nodes && g.Edge(a, b) ensures rank[a] < rank[b] {
      var v :| v in g.node[b].inputs && v !in g.nulls && v in g.node[a].outputs;
      var j := IndexOf(order, b);
      assert Runnable(g, inputs, order[..j], order[j]);
      assert Available(g, inputs, order[..j], v);
      WriterIs(g, a, v);
      var i :| 0 <= i < |order[..j]| && order[..j][i] == a;
      assert order[i] == a;
      assert IndexOf(order, a) == i;
    }
    assert g.Ranks(nodes, rank);
  }

  lemma WriterIs(g: Snapshot, n: NodeId, v: ValueId)
    requires g.Ssa() && n in g.node && v in g.node[n].outputs
    ensures v in g.producer && g.producer[v] == n
  {
    var i :| 0 <= i < |g.node[n].outputs| && g.node[n].outputs[i] == v;
  }

  ghost function IndexOf(order: seq<NodeId>, n: NodeId): (i: nat)
    ensures n in order ==> i < |order| && order[i] == n
  {
    if n in order then var i :| 0 <= i < |order| && order[i] == n; i else 0
  }

  // ---- values still to be counted ----

  /** Every available value has been counted or is queued, once. */
  ghost predicate Queued(g: Snapshot, inputs: seq<ValueId>, order: seq<NodeId>, done: set<ValueId>, q: seq<ValueId>) {
    && Distinct(q)
    && (forall v :: v in q ==> v !in done && Available(g, inputs, order, v))
    && (forall v :: Available(g, inputs, order, v) ==> v in done || v in q)
  }

  /** Nodes with nothing pending have run, but for those in `rest`. */
  ghost predicate Waiting(counts: map<NodeId, nat>, order: seq<NodeId>, rest: seq<NodeId>) {
    && Distinct(rest)
    && (forall n :: n in rest ==> n in counts && counts[n] == 0 && n !in order)
    && (forall n :: n in counts && counts[n] == 0 ==> n in order || n in rest)
  }

  /** Counting one more available value leaves exactly the fired nodes waiting. */
  lemma ValueCounted(g: Snapshot, inputs: seq<ValueId>, before: map<NodeId, nat>, counts: map<NodeId, nat>,
                     done: set<ValueId>, order: seq<NodeId>, rest: seq<NodeId>, fired: seq<NodeId>, v: ValueId)
    requires Progress(g, inputs, before, done, order) && Waiting(before, order, rest)
    requires counts.Keys == before.Keys && CountsAgree(g, counts, g.nulls + done + {v})
    requires Fired(before, counts, fired) && Available(g, inputs, order, v)
    ensures Progress(g, inputs, counts, done + {v}, order) && Waiting(counts, order, rest + fired)
    ensures [] + fired == fired
  {
    assert g.nulls + (done + {v}) == g.nulls + done + {v};
    DistinctConcat(rest, fired);
  }

  /** Running a node makes exactly its outputs available. */
  lemma RunNextQueued(g: Snapshot, inputs: seq<ValueId>, order: seq<NodeId>, done: set<ValueId>, q: seq<ValueId>,
                      n: NodeId)
    requires g.Ssa() && GoodInputs(g, inputs) && Queued(g, inputs, order, done, q)
    requires n in g.node && n !in order
    requires forall v :: v in done ==> Available(g, inputs, order, v)
    ensures Queued(g, inputs, order + [n], done, q + g.node[n].outputs)
  {
    var outs, q' := g.node[n].outputs, q + g.node[n].outputs;
    forall v | v in outs ensures !Available(g, inputs, order, v) && v in g.producer && g.producer[v] == n {
      WriterIs(g, n, v);
    }
    forall v | Available(g, inputs, order + [n], v) ensures v in done || v in q' {
      if !Available(g, inputs, order, v) {
        assert v in outs;
      }
    }
  }

  lemma ListNextWaiting(counts: map<NodeId, nat>, order: seq<NodeId>, rest: seq<NodeId>, n: NodeId)
    requires Waiting(counts, order, [n] + rest)
    ensures Waiting(counts, order + [n], rest)
  {
    var all := [n] + rest;
    assert all[0] == n;
    assert forall i :: 0 <= i < |rest| ==> all[i + 1] == rest[i];
    assert forall m :: m in rest ==> m in all;
  }

  lemma PopQueued(g: Snapshot, inputs: seq<ValueId>, order: seq<NodeId>, done: set<ValueId>, q: seq<ValueId>)
    requires q != [] && Queued(g, inputs, order, done, q)
    ensures Queued(g, inputs, order, done + {q[0]}, q[1..])
  {
  }

  lemma FrontIsNew(g: Snapshot, inputs: seq<ValueId>, order: seq<NodeId>, done: set<ValueId>, q: seq<ValueId>)
    requires g.Ssa() && GoodInputs(g, inputs) && q != [] && Queued(g, inputs, order, done, q)
    ensures q[0] !in g.nulls + done || g.Users(q[0]) == []
  {
    assert Available(g, inputs, order, q[0]);
  }

  lemma {:induction false} DistinctWithin(order: seq<NodeId>, keys: set<NodeId>)
    requires Distinct(order) && forall j :: 0 <= j < |order| ==> order[j] in keys
    ensures |order| <= |keys|
  {
    if order != [] {
      var last := |order| - 1;
      DistinctWithin(order[..last], keys - {order[last]});
    }
  }

  /** The keys with count zero, in the order of the map (pointers: an arbitrary one). */
  method ZeroCounts(counts: map<NodeId, nat>) returns (zero: seq<NodeId>)
    ensures Distinct(zero) && forall n :: n in zero <==> n in counts && counts[n] == 0
  {
    zero := [];
    var rest := counts.Keys;
    while rest != {}
      invariant rest <= counts.Keys
      invariant Distinct(zero)
      invariant forall n :: n in zero <==> n in counts && counts[n] == 0 && n !in rest
    {
      var n :| n in rest;
      rest := rest - {n};
      if counts[n] == 0 { zero := zero + [n]; }
    }
  }
}
