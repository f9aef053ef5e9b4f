/** compiler/topology.cc: a breadth-first topological sort that also measures, for every
    node, how far it is from the sources. */
module Topology {
  import opened Ir
  import opened Worklist

  /** Distance of a value: one more than its producer's, 0 for a value nobody sorted writes. */
  ghost function ValueDistance(g: Snapshot, dist: map<NodeId, nat>, v: ValueId): nat {
    if v in g.producer && g.producer[v] in dist then dist[g.producer[v]] + 1 else 0
  }

  /** The distance of `n` is the maximum over its inputs. */
  ghost predicate FarthestInput(g: Snapshot, dist: map<NodeId, nat>, n: NodeId) {
    && n in g.node && n in dist
    && (forall v :: v in g.node[n].inputs && v !in g.nulls ==> ValueDistance(g, dist, v) <= dist[n])
    && (dist[n] == 0 ||
        exists v :: v in g.node[n].inputs && v !in g.nulls && ValueDistance(g, dist, v) == dist[n])
  }

  ghost predicate Distances(g: Snapshot, dist: map<NodeId, nat>) {
    forall n :: n in dist ==> FarthestInput(g, dist, n)
  }

  /** A chain of nodes of `within`, each reading the one before. */
  ghost predicate Path(g: Snapshot, within: set<NodeId>, p: seq<NodeId>) {
    g.Chain(p) && forall i :: 0 <= i < |p| ==> p[i] in within
  }

  /** No chain that ends in a node is longer than the distance of the node ... */
  lemma {:induction false} DistanceBoundsPaths(g: Snapshot, dist: map<NodeId, nat>, p: seq<NodeId>)
    requires g.Ssa() && Distances(g, dist) && Path(g, dist.Keys, p)
    ensures |p| - 1 <= dist[p[|p| - 1]]
  {
    if |p| > 1 {
      var last := |p| - 1;
      var q := p[..last];
      assert Path(g, dist.Keys, q) by {
        forall i | 0 < i < |q| ensures g.Edge(q[i - 1], q[i]) { assert g.Edge(p[i - 1], p[i]); }
      }
      DistanceBoundsPaths(g, dist, q);
      assert g.Edge(p[last - 1], p[last]);
      var v :| v in g.node[p[last]].inputs && v !in g.nulls && v in g.node[p[last - 1]].outputs;
      WriterIs(g, p[last - 1], v);
      assert FarthestInput(g, dist, p[last]);
    }
  }

  /** ... and one chain is exactly that long. */
  lemma {:induction false} LongestPath(g: Snapshot, dist: map<NodeId, nat>, n: NodeId) returns (p: seq<NodeId>)
    requires g.Ssa() && Distances(g, dist) && n in dist
    ensures Path(g, dist.Keys, p) && p[|p| - 1] == n && |p| - 1 == dist[n]
    decreases dist[n]
  {
    assert FarthestInput(g, dist, n);
    if dist[n] == 0 {
      p := [n];
    } else {
      var v :| v in g.node[n].inputs && v !in g.nulls && ValueDistance(g, dist, v) == dist[n];
      var q := LongestPath(g, dist, g.producer[v]);
      assert g.Edge(g.producer[v], n);
      hide Distances, FarthestInput, ValueDistance;
      p := q + [n];
      ChainNext(g, q, n);
    }
  }

  // ---- the invariant of the queue ----

  type Queue = seq<(ValueId, nat)>

  function Values(q: Queue): seq<ValueId> {
    seq(|q|, k requires 0 <= k < |q| => q[k].0)
  }

  /** The queue holds at most two distances, in order, and nothing behind it is farther. */
  ghost predicate Measured(g: Snapshot, dist: map<NodeId, nat>, done: set<ValueId>, q: Queue, cur: nat) {
    && (forall k :: 0 <= k < |q| ==> cur <= q[k].1 <= cur + 1 && q[k].1 == ValueDistance(g, dist, q[k].0))
    && (forall i, j :: 0 <= i <= j < |q| ==> q[i].1 <= q[j].1)
    && (forall v :: v in done ==> ValueDistance(g, dist, v) <= cur)
  }

  ghost predicate Listed(order: seq<NodeId>, dist: map<NodeId, nat>, sorted: seq<(NodeId, nat)>, cur: nat) {
    && |sorted| == |order|
    && (forall n :: n in dist <==> n in order)
    && (forall j :: 0 <= j < |order| ==>
          sorted[j].0 == order[j] && order[j] in dist && sorted[j].1 == dist[order[j]] <= cur)
    && (forall i, j :: 0 <= i <= j < |sorted| ==> sorted[i].1 <= sorted[j].1)
  }

  ghost predicate AtDistance(g: Snapshot, dist: map<NodeId, nat>, rest: seq<NodeId>, cur: nat) {
    forall n :: n in rest ==> n in g.node && FarthestAt(g, dist, n, cur)
  }

  ghost predicate FarthestAt(g: Snapshot, dist: map<NodeId, nat>, n: NodeId, d: nat)
    requires n in g.node
  {
    && (forall v :: v in g.node[n].inputs && v !in g.nulls ==> ValueDistance(g, dist, v) <= d)
    && (d == 0 || exists v :: v in g.node[n].inputs && v !in g.nulls && ValueDistance(g, dist, v) == d)
  }

  ghost predicate Invariant(g: Snapshot, inputs: seq<ValueId>, counts: map<NodeId, nat>, done: set<ValueId>,
                            order: seq<NodeId>, rest: seq<NodeId>, dist: map<NodeId, nat>,
                            sorted: seq<(NodeId, nat)>, q: Queue, cur: nat) {
    && Progress(g, inputs, counts, done, order)
    && Waiting(counts, order, rest)
    && AtDistance(g, dist, rest, cur)
    && Distances(g, dist)
    && Queued(g, inputs, order, done, Values(q))
    && Measured(g, dist, done, q, cur)
    && Listed(order, dist, sorted, cur)
  }

  function Outputs(g: Snapshot, n: NodeId, d: nat): Queue
    requires n in g.node
  {
    var outs := g.node[n].outputs;
    seq(|outs|, k requires 0 <= k < |outs| => (outs[k], d + 1))
  }

  /** Listing `n` gives a distance to its outputs only. */
  lemma SameDistance(g: Snapshot, inputs: seq<ValueId>, order: seq<NodeId>, dist: map<NodeId, nat>,
                     n: NodeId, d: nat, v: ValueId)
    requires GoodInputs(g, inputs) && n !in order && Available(g, inputs, order, v)
    ensures ValueDistance(g, dist[n := d], v) == ValueDistance(g, dist, v)
  {
  }

  lemma ListNextMeasured(g: Snapshot, inputs: seq<ValueId>, order: seq<NodeId>, dist: map<NodeId, nat>,
                         done: set<ValueId>, q: Queue, n: NodeId, cur: nat)
    requires g.Ssa() && GoodInputs(g, inputs) && Queued(g, inputs, order, done, Values(q))
    requires Measured(g, dist, done, q, cur)
    requires n in g.node && n !in order
    requires forall v :: v in done ==> Available(g, inputs, order, v)
    ensures Measured(g, dist[n := cur], done, q + Outputs(g, n, cur), cur)
  {
    var outs, q', dist' := g.node[n].outputs, q + Outputs(g, n, cur), dist[n := cur];
    forall k | 0 <= k < |q'| ensures cur <= q'[k].1 <= cur + 1 && q'[k].1 == ValueDistance(g, dist', q'[k].0) {
      if k < |q| {
        assert Values(q)[k] == q[k].0;
        SameDistance(g, inputs, order, dist, n, cur, q[k].0);
      } else {
        WriterIs(g, n, outs[k - |q|]);
      }
    }
    forall v | v in done ensures ValueDistance(g, dist', v) <= cur {
      SameDistance(g, inputs, order, dist, n, cur, v);
    }
  }

  lemma ListNextFarthest(g: Snapshot, inputs: seq<ValueId>, order: seq<NodeId>, dist: map<NodeId, nat>,
                         n: NodeId, cur: nat, m: NodeId, d: nat)
    requires GoodInputs(g, inputs) && n !in order
    requires m in g.node && Runnable(g, inputs, order, m) && FarthestAt(g, dist, m, d)
    ensures FarthestAt(g, dist[n := cur], m, d)
  {
    forall v | v in g.node[m].inputs && v !in g.nulls
      ensures ValueDistance(g, dist[n := cur], v) == ValueDistance(g, dist, v)
    {
      SameDistance(g, inputs, order, dist, n, cur, v);
    }
  }

  lemma ListNextDistances(g: Snapshot, inputs: seq<ValueId>, order: seq<NodeId>, dist: map<NodeId, nat>,
                          sorted: seq<(NodeId, nat)>, rest: seq<NodeId>, n: NodeId, cur: nat)
    requires GoodInputs(g, inputs) && Topological(g, inputs, order) && n !in order
    requires Listed(order, dist, sorted, cur)
    requires Distances(g, dist) && AtDistance(g, dist, [n] + rest, cur)
    requires forall m :: m in [n] + rest ==> m in g.node && Runnable(g, inputs, order, m)
    ensures Distances(g, dist[n := cur]) && AtDistance(g, dist[n := cur], rest, cur)
  {
    var dist' := dist[n := cur];
    assert ([n] + rest)[0] == n;
    forall m | m in dist' ensures FarthestInput(g, dist', m) {
      if m == n {
        ListNextFarthest(g, inputs, order, dist, n, cur, n, cur);
      } else {
        var j :| 0 <= j < |order| && order[j] == m;
        assert Runnable(g, inputs, order[..j], order[j]);
        RunnableMore(g, inputs, order[..j], order, m);
        assert FarthestInput(g, dist, m);
        ListNextFarthest(g, inputs, order, dist, n, cur, m, dist[m]);
      }
    }
    forall m | m in rest ensures FarthestAt(g, dist', m, cur) {
      assert m in [n] + rest;
      ListNextFarthest(g, inputs, order, dist, n, cur, m, cur);
    }
  }

  lemma RunnableMore(g: Snapshot, inputs: seq<ValueId>, some: seq<NodeId>, more: seq<NodeId>, n: NodeId)
    requires n in g.node && Runnable(g, inputs, some, n) && forall m :: m in some ==> m in more
    ensures Runnable(g, inputs, more, n)
  {
    forall v | v in g.node[n].inputs && v !in g.nulls ensures Available(g, inputs, more, v) {
      assert Available(g, inputs, some, v);
    }
  }

  lemma RestRunnable(g: Snapshot, inputs: seq<ValueId>, counts: map<NodeId, nat>, done: set<ValueId>,
                     order: seq<NodeId>, n: NodeId)
    requires Progress(g, inputs, counts, done, order) && n in counts && counts[n] == 0
    ensures n in g.node && Runnable(g, inputs, order, n)
  {
    PendingZero(g.node[n].inputs, g.nulls + done);
  }

  /** The lambda `add_sorted_node`. */
  lemma ListNext(g: Snapshot, inputs: seq<ValueId>, counts: map<NodeId, nat>, done: set<ValueId>,
                 order: seq<NodeId>, rest: seq<NodeId>, dist: map<NodeId, nat>,
                 sorted: seq<(NodeId, nat)>, q: Queue, cur: nat, n: NodeId)
    requires g.Ssa() && GoodInputs(g, inputs)
    requires Invariant(g, inputs, counts, done, order, [n] + rest, dist, sorted, q, cur)
    ensures n in g.node && n in counts && n !in order
    ensures Invariant(g, inputs, counts, done, order + [n], rest, dist[n := cur],
                      sorted + [(n, cur)], q + Outputs(g, n, cur), cur)
  {
    hide Queued, Measured, Distances, AtDistance, Runnable, FarthestAt, Listed;
    ListNextListed(order, dist, sorted, cur, n);
    assert ([n] + rest)[0] == n;
    forall m | m in [n] + rest ensures m in g.node && Runnable(g, inputs, order, m) {
      RestRunnable(g, inputs, counts, done, order, m);
    }
    RunNext(g, inputs, counts, done, order, n);
    RunNextQueued(g, inputs, order, done, Values(q), n);
    assert Values(q + Outputs(g, n, cur)) == Values(q) + g.node[n].outputs;
    ListNextMeasured(g, inputs, order, dist, done, q, n, cur);
    ListNextDistances(g, inputs, order, dist, sorted, rest, n, cur);
    ListNextWaiting(counts, order, rest, n);
  }

  /** Taking the front of the queue: its readers that become ready are at its distance. */
  lemma PopFront(g: Snapshot, inputs: seq<ValueId>, before: map<NodeId, nat>, counts: map<NodeId, nat>,
                 done: set<ValueId>, order: seq<NodeId>, fired: seq<NodeId>, dist: map<NodeId, nat>,
                 sorted: seq<(NodeId, nat)>, q: Queue, cur: nat)
    requires g.Ssa() && g.DefUse() && GoodInputs(g, inputs) && q != []
    requires Invariant(g, inputs, before, done, order, [], dist, sorted, q, cur)
    requires counts.Keys == before.Keys && CountsAgree(g, counts, g.nulls + done + {q[0].0})
    requires Fired(before, counts, fired)
    requires forall n :: n in fired ==> n in g.node && q[0].0 in g.node[n].inputs
    ensures Invariant(g, inputs, counts, done + {q[0].0}, order, fired, dist, sorted, q[1..], q[0].1)
  {
    var v, d := q[0].0, q[0].1;
    assert g.nulls + (done + {v}) == g.nulls + done + {v};
    assert Values(q)[0] == v && Available(g, inputs, order, v);
    hide Topological, Distances, Listed, Closed, FarthestAt, AtDistance, Progress, Waiting, Queued, Measured;
    ValueCounted(g, inputs, before, counts, done, order, [], fired, v);
    FiredAtDistance(g, inputs, counts, order, done, fired, dist, q, cur);
    PopQueued(g, inputs, order, done, Values(q));
    PopMeasured(g, dist, done, q, cur);
    ListedLater(order, dist, sorted, cur, d);
    assert Values(q[1..]) == Values(q)[1..];
  }

  lemma FiredAtDistance(g: Snapshot, inputs: seq<ValueId>, counts: map<NodeId, nat>, order: seq<NodeId>,
                        done: set<ValueId>, fired: seq<NodeId>, dist: map<NodeId, nat>, q: Queue, cur: nat)
    requires g.Ssa() && g.DefUse() && GoodInputs(g, inputs) && q != [] && Measured(g, dist, done, q, cur)
    requires CountsAgree(g, counts, g.nulls + (done + {q[0].0})) && Available(g, inputs, order, q[0].0)
    requires forall n :: n in fired ==>
      n in counts && counts[n] == 0 && n in g.node && q[0].0 in g.node[n].inputs
    ensures AtDistance(g, dist, fired, q[0].1)
  {
    forall n | n in fired ensures n in g.node && FarthestAt(g, dist, n, q[0].1) {
      UserReads(g, q[0].0, n);
      PendingZero(g.node[n].inputs, g.nulls + (done + {q[0].0}));
    }
  }

  lemma ListedLater(order: seq<NodeId>, dist: map<NodeId, nat>, sorted: seq<(NodeId, nat)>, cur: nat, d: nat)
    requires Listed(order, dist, sorted, cur) && cur <= d
    ensures Listed(order, dist, sorted, d)
  {
  }

  lemma ListNextListed(order: seq<NodeId>, dist: map<NodeId, nat>, sorted: seq<(NodeId, nat)>, cur: nat, n: NodeId)
    requires Listed(order, dist, sorted, cur) && n !in order
    ensures Listed(order + [n], dist[n := cur], sorted + [(n, cur)], cur)
  {
  }

  lemma PopMeasured(g: Snapshot, dist: map<NodeId, nat>, done: set<ValueId>, q: Queue, cur: nat)
    requires q != [] && Measured(g, dist, done, q, cur)
    ensures cur <= q[0].1 && Measured(g, dist, done + {q[0].0}, q[1..], q[0].1)
  {
  }

  /** What is asked of the sorted list. */
  ghost predicate SortedByDistance(g: Snapshot, inputs: seq<ValueId>, order: seq<NodeId>,
                                   dist: map<NodeId, nat>, sorted: seq<(NodeId, nat)>) {
    && Topological(g, inputs, order)
    && Distances(g, dist)
    && exists cur: nat :: Listed(order, dist, sorted, cur)
  }

  method AddSortedNodes(g: Snapshot, ghost inputs: seq<ValueId>, ghost counts: map<NodeId, nat>,
                        ghost done: set<ValueId>, ghost orderIn: seq<NodeId>, ghost distIn: map<NodeId, nat>,
                        fired: seq<NodeId>, distance: nat, sortedIn: seq<(NodeId, nat)>, qIn: Queue)
    returns (sorted: seq<(NodeId, nat)>, q: Queue, ghost order: seq<NodeId>, ghost dist: map<NodeId, nat>)
    requires g.Ssa() && GoodInputs(g, inputs)
    requires Invariant(g, inputs, counts, done, orderIn, fired, distIn, sortedIn, qIn, distance)
    ensures Invariant(g, inputs, counts, done, order, [], dist, sorted, q, distance)
    ensures |order| == |orderIn| + |fired| && (fired == [] ==> q == qIn)
  {
    sorted, q, order, dist := sortedIn, qIn, orderIn, distIn;
    hide *;
    AllRest(fired);
    var i := 0;
    while i < |fired|
      invariant 0 <= i <= |fired| && |order| == |orderIn| + i && (i == 0 ==> q == qIn)
      invariant Invariant(g, inputs, counts, done, order, fired[i..], dist, sorted, q, distance)
    {
      var n := fired[i];
      RestSplits(fired, i);
      ListNext(g, inputs, counts, done, order, fired[i + 1..], dist, sorted, q, distance, n);
      order, dist := order + [n], dist[n := distance];
      sorted := sorted + [(n, distance)];
      q := q + Outputs(g, n, distance);
      i := i + 1;
    }
    NoRest(fired);
  }

  lemma RestSplits<T>(s: seq<T>, i: nat)
    requires i < |s|
    ensures s[i..] == [s[i]] + s[i + 1..]
  {
  }

  lemma AllRest<T>(s: seq<T>)
    ensures s[0..] == s
  {
  }

  lemma NoRest<T>(s: seq<T>)
    ensures s[|s|..] == []
  {
  }

  method CountInputs(g: Snapshot, nodes: seq<NodeId>) returns (counts: map<NodeId, nat>)
    requires forall n :: n in nodes ==> n in g.node
    ensures CountsAgree(g, counts, g.nulls) && forall n :: n in counts <==> n in nodes
  {
    counts := map[];
    var i := 0;
    while i < |nodes|
      invariant 0 <= i <= |nodes|
      invariant CountsAgree(g, counts, g.nulls) && forall n :: n in counts <==> n in nodes[..i]
    {
      var c := GetNumActualInputs(g, nodes[i]);
      counts := counts[nodes[i] := c];
      i := i + 1;
    }
  }

  lemma StartInvariant(g: Snapshot, inputs: seq<ValueId>, counts: map<NodeId, nat>, zero: seq<NodeId>, q: Queue)
    requires GoodInputs(g, inputs) && CountsAgree(g, counts, g.nulls)
    requires Distinct(zero) && forall n :: n in zero <==> n in counts && counts[n] == 0
    requires |q| == |inputs| && forall k :: 0 <= k < |q| ==> q[k] == (inputs[k], 0)
    ensures Invariant(g, inputs, counts, {}, [], zero, map[], [], q, 0)
  {
    assert g.nulls + {} == g.nulls;
    forall n | n in zero ensures n in g.node && FarthestAt(g, map[], n, 0) {
      PendingZero(g.node[n].inputs, g.nulls);
    }
    assert Values(q) == inputs;
  }

  lemma Unpack(g: Snapshot, inputs: seq<ValueId>, counts: map<NodeId, nat>, done: set<ValueId>,
               order: seq<NodeId>, dist: map<NodeId, nat>, sorted: seq<(NodeId, nat)>, q: Queue, cur: nat)
    requires Invariant(g, inputs, counts, done, order, [], dist, sorted, q, cur)
    ensures |Values(q)| == |q| && (q != [] ==> Values(q)[0] == q[0].0)
    ensures CountsAgree(g, counts, g.nulls + done) && Queued(g, inputs, order, done, Values(q))
    ensures |order| <= |counts.Keys|
  {
    DistinctWithin(order, counts.Keys);
  }

  /** An emptied queue means that nothing that could be listed is missing. */
  lemma Complete(g: Snapshot, inputs: seq<ValueId>, counts: map<NodeId, nat>, done: set<ValueId>,
                 order: seq<NodeId>, dist: map<NodeId, nat>, sorted: seq<(NodeId, nat)>, cur: nat)
    requires g.Ssa() && GoodInputs(g, inputs)
    requires Invariant(g, inputs, counts, done, order, [], dist, sorted, [], cur)
    ensures SortedByDistance(g, inputs, order, dist, sorted)
    ensures forall n :: n in order ==> n in counts
    ensures (forall n :: n in counts ==> n in order) <==>
      Closed(g, inputs, counts.Keys) && g.AcyclicOn(counts.Keys)
  {
    if Closed(g, inputs, counts.Keys) && g.AcyclicOn(counts.Keys) {
      var rank :| g.Ranks(counts.Keys, rank);
      forall n | n in counts ensures n in order {
        AllRun(g, inputs, counts, done, order, rank, n);
      }
    }
    if forall n :: n in counts ==> n in order {
      OrderIsAcyclic(g, inputs, order, counts.Keys);
    }
  }

  /** Lists the nodes by their distance from the sources.  All of `nodes` come out exactly
      when they are closed under producers and free of cycles. */
  method SortTopologicallyWithDistance(g: Snapshot, nodes: seq<NodeId>, inputs: seq<ValueId>)
    returns (sorted: seq<(NodeId, nat)>, ghost order: seq<NodeId>, ghost dist: map<NodeId, nat>)
    requires g.DefUse() && g.Ssa() && GoodInputs(g, inputs)
    requires forall n :: n in nodes ==> n in g.node
    ensures SortedByDistance(g, inputs, order, dist, sorted)
    ensures forall n :: n in order ==> n in nodes
    ensures (forall n :: n in nodes ==> n in order) <==>
      Closed(g, inputs, SetOf(nodes)) && g.AcyclicOn(SetOf(nodes))
  {
    var q: Queue := seq(|inputs|, k requires 0 <= k < |inputs| => (inputs[k], 0));
    var counts := CountInputs(g, nodes);
    var zero := ZeroCounts(counts);
    StartInvariant(g, inputs, counts, zero, q);
    assert counts.Keys == SetOf(nodes);
    hide *;
    sorted, q, order, dist := AddSortedNodes(g, inputs, counts, {}, [], map[], zero, 0, [], q);
    sorted, order, dist := DrainQueue(g, inputs, counts, order, dist, sorted, q);
  }

  method DrainQueue(g: Snapshot, ghost inputs: seq<ValueId>, countsIn: map<NodeId, nat>,
                    ghost orderIn: seq<NodeId>, ghost distIn: map<NodeId, nat>,
                    sortedIn: seq<(NodeId, nat)>, qIn: Queue)
    returns (sorted: seq<(NodeId, nat)>, ghost order: seq<NodeId>, ghost dist: map<NodeId, nat>)
    requires g.DefUse() && g.Ssa() && GoodInputs(g, inputs)
    requires Invariant(g, inputs, countsIn, {}, orderIn, [], distIn, sortedIn, qIn, 0)
    ensures SortedByDistance(g, inputs, order, dist, sorted)
    ensures forall n :: n in order ==> n in countsIn
    ensures (forall n :: n in countsIn ==> n in order) <==>
      Closed(g, inputs, countsIn.Keys) && g.AcyclicOn(countsIn.Keys)
  {
    var counts, q := countsIn, qIn;
    sorted, order, dist := sortedIn, orderIn, distIn;
    ghost var done: set<ValueId>, cur: nat := {}, 0;
    hide *;
    while q != []
      invariant counts.Keys == countsIn.Keys
      invariant Invariant(g, inputs, counts, done, order, [], dist, sorted, q, cur)
      decreases |countsIn.Keys| - |order|, |q|
    {
      var v, distance := q[0].0, q[0].1;
      Unpack(g, inputs, counts, done, order, dist, sorted, q, cur);
      FrontIsNew(g, inputs, order, done, Values(q));
      ghost var before := counts;
      var fired: seq<NodeId>;
      counts, fired := MakeValueReady(g, v, counts, g.nulls + done);
      PopFront(g, inputs, before, counts, done, order, fired, dist, sorted, q, cur);
      done, cur := done + {v}, distance;
      sorted, q, order, dist := AddSortedNodes(g, inputs, counts, done, order, dist, fired, distance, sorted, q[1..]);
      Unpack(g, inputs, counts, done, order, dist, sorted, q, cur);
    }
    Complete(g, inputs, counts, done, order, dist, sorted, cur);
  }

  /** The list without the distances. */
  method SortTopologically(g: Snapshot, nodes: seq<NodeId>, inputs: seq<ValueId>) returns (order: seq<NodeId>)
    requires g.DefUse() && g.Ssa() && GoodInputs(g, inputs)
    requires forall n :: n in nodes ==> n in g.node
    ensures Topological(g, inputs, order)
    ensures forall n :: n in order ==> n in nodes
    ensures (forall n :: n in nodes ==> n in order) <==>
      Closed(g, inputs, SetOf(nodes)) && g.AcyclicOn(SetOf(nodes))
  {
    var sorted: seq<(NodeId, nat)>;
    ghost var listed: seq<NodeId>, dist: map<NodeId, nat>;
    sorted, listed, dist := SortTopologicallyWithDistance(g, nodes, inputs);
    order := [];
    var i := 0;
    while i < |sorted|
      invariant 0 <= i <= |sorted| == |listed| && order == listed[..i]
    {
      order := order + [sorted[i].0];
      i := i + 1;
    }
    assert listed[..i] == listed;
  }
}
