/** compiler/scheduler.cc and Graph::GetNecessaryNodesAndInputCounts of compiler/graph.cc:
    which nodes must run for some outputs, and in which order. */
module Scheduler {
  import opened Ir
  import opened Worklist
  import Delay

  // ---- the necessary nodes ----

  /** `nodes` has all that is needed to compute `outputs`; nodes without outputs always run. */
  ghost predicate Sufficient(g: Snapshot, outputs: seq<ValueId>, nodes: set<NodeId>) {
    && (forall v :: v in outputs && v in g.producer ==> g.producer[v] in nodes)
    && (forall n :: n in g.node && g.node[n].outputs == [] ==> n in nodes)
    && (forall n, v :: n in nodes && n in g.node && v in g.node[n].inputs && v in g.producer ==>
          g.producer[v] in nodes)
  }

  /** Neither `found` nor `queue` goes beyond what every sufficient set has. */
  ghost predicate OnlyNeeded(g: Snapshot, outputs: seq<ValueId>, found: set<NodeId>, queue: seq<NodeId>) {
    && (forall n :: n in found ==> Needed(g, outputs, n))
    && (forall n :: n in queue ==> Needed(g, outputs, n))
  }

  ghost predicate Needed(g: Snapshot, outputs: seq<ValueId>, n: NodeId) {
    n in g.node && forall nodes: set<NodeId> :: Sufficient(g, outputs, nodes) ==> n in nodes
  }

  /** Everything needed is found or queued. */
  ghost predicate Covered(g: Snapshot, outputs: seq<ValueId>, found: set<NodeId>, queue: seq<NodeId>) {
    && (forall v :: v in outputs && v in g.producer ==> g.producer[v] in found || g.producer[v] in queue)
    && (forall n :: n in g.node && g.node[n].outputs == [] ==> n in found || n in queue)
    && (forall n, v :: n in found && n in g.node && v in g.node[n].inputs && v in g.producer ==>
          g.producer[v] in found || g.producer[v] in queue)
  }

  ghost predicate ReachedFrom(g: Snapshot, values: seq<ValueId>, q: seq<NodeId>) {
    && (forall v :: v in values && v in g.producer ==> g.producer[v] in q)
    && (forall n :: n in q ==> n in g.node && (g.node[n].outputs == [] || Produces(g, values, n)))
  }

  ghost predicate Produces(g: Snapshot, values: seq<ValueId>, n: NodeId) {
    exists v :: v in values && v in g.producer && g.producer[v] == n
  }

  /** The producers of `values` and, when `withUsers`, their users that have no output. */
  method Reached(g: Snapshot, values: seq<ValueId>, withUsers: bool) returns (q: seq<NodeId>)
    requires g.DefUse() && g.Ssa()
    ensures ReachedFrom(g, values, q)
    ensures withUsers ==>
      forall v, n :: v in values && n in g.Users(v) && n in g.node && g.node[n].outputs == [] ==> n in q
  {
    q := [];
    var i := 0;
    while i < |values|
      invariant 0 <= i <= |values|
      invariant ReachedFrom(g, values[..i], q)
      invariant withUsers ==>
        forall v, n :: v in values[..i] && n in g.Users(v) && n in g.node && g.node[n].outputs == [] ==> n in q
    {
      var v := values[i];
      MoreReached(g, values[..i], q, v);
      assert values[..i + 1] == values[..i] + [v];
      if v in g.producer { q := q + [g.producer[v]]; }
      if withUsers {
        var more := UsersWithoutOutputs(g, v);
        q := q + more;
      }
      i := i + 1;
    }
    assert values[..i] == values;
  }

  lemma MoreReached(g: Snapshot, values: seq<ValueId>, q: seq<NodeId>, v: ValueId)
    requires g.Ssa() && ReachedFrom(g, values, q)
    ensures ReachedFrom(g, values + [v], if v in g.producer then q + [g.producer[v]] else q)
  {
    forall n | n in q && g.node[n].outputs != [] ensures Produces(g, values + [v], n) {
      assert Produces(g, values, n);
      var w :| w in values && w in g.producer && g.producer[w] == n;
      assert w in values + [v];
    }
    if v in g.producer {
      assert v in values + [v];
      assert Produces(g, values + [v], g.producer[v]);
    }
  }

  method UsersWithoutOutputs(g: Snapshot, v: ValueId) returns (q: seq<NodeId>)
    requires g.DefUse()
    ensures forall n :: n in q <==> n in g.Users(v) && n in g.node && g.node[n].outputs == []
  {
    var users, i := g.Users(v), 0;
    q := [];
    while i < |users|
      invariant 0 <= i <= |users|
      invariant forall n :: n in q <==> n in users[..i] && n in g.node && g.node[n].outputs == []
    {
      UserReads(g, v, users[i]);
      if g.node[users[i]].outputs == [] { q := q + [users[i]]; }
      i := i + 1;
    }
    assert users[..i] == users;
  }

  method NodesWithoutOutputs(g: Snapshot) returns (q: seq<NodeId>)
    ensures forall n :: n in q <==> n in g.node && g.node[n].outputs == []
  {
    q := [];
    var rest := g.node.Keys;
    while rest != {}
      invariant rest <= g.node.Keys
      invariant forall n :: n in q <==> n in g.node && g.node[n].outputs == [] && n !in rest
    {
      var n :| n in rest;
      rest := rest - {n};
      if g.node[n].outputs == [] { q := q + [n]; }
    }
  }

  lemma StartNeeded(g: Snapshot, outputs: seq<ValueId>, q0: seq<NodeId>, q1: seq<NodeId>)
    requires g.Ssa()
    requires ReachedFrom(g, outputs, q0)
    requires forall n :: n in q1 <==> n in g.node && g.node[n].outputs == []
    ensures OnlyNeeded(g, outputs, {}, q0 + q1) && Covered(g, outputs, {}, q0 + q1)
  {
  }

  lemma NextNeeded(g: Snapshot, outputs: seq<ValueId>, found: set<NodeId>, n: NodeId, queue: seq<NodeId>,
                   reached: seq<NodeId>)
    requires OnlyNeeded(g, outputs, found, [n] + queue) && Covered(g, outputs, found, [n] + queue)
    requires n in g.node
    requires ReachedFrom(g, g.node[n].inputs, reached)
    ensures OnlyNeeded(g, outputs, found + {n}, queue + reached) && Covered(g, outputs, found + {n}, queue + reached)
  {
    assert ([n] + queue)[0] == n;
    assert forall m :: m in queue ==> m in [n] + queue;
    forall m | m in reached ensures Needed(g, outputs, m) {
      forall nodes: set<NodeId> | Sufficient(g, outputs, nodes) ensures m in nodes {
        assert Needed(g, outputs, n);
        if g.node[m].outputs != [] { assert Produces(g, g.node[n].inputs, m); }
      }
    }
  }

  lemma NoCounts(g: Snapshot)
    ensures
      var none: map<NodeId, nat> := map[];
      CountsAgree(g, none, g.nulls) && none.Keys == {}
  {
  }

  lemma FirstAndRest<T>(s: seq<T>)
    requires s != []
    ensures s == [s[0]] + s[1..]
  {
  }

  lemma SkipNeeded(g: Snapshot, outputs: seq<ValueId>, found: set<NodeId>, n: NodeId, queue: seq<NodeId>)
    requires OnlyNeeded(g, outputs, found, [n] + queue) && Covered(g, outputs, found, [n] + queue) && n in found
    ensures OnlyNeeded(g, outputs, found, queue) && Covered(g, outputs, found, queue)
  {
    assert forall m :: m in queue ==> m in [n] + queue;
    assert forall m :: m in [n] + queue ==> m == n || m in queue;
  }

  /** The least sufficient set of nodes, each with the number of its non-null inputs. */
  method GetNecessaryNodesAndInputCounts(g: Snapshot, outputs: seq<ValueId>) returns (counts: map<NodeId, nat>)
    requires g.DefUse() && g.Ssa()
    ensures CountsAgree(g, counts, g.nulls)
    ensures Sufficient(g, outputs, counts.Keys)
    ensures forall nodes: set<NodeId> :: Sufficient(g, outputs, nodes) ==> counts.Keys <= nodes
  {
    hide *;
    counts := map[];
    var q0 := Reached(g, outputs, false);
    var q1 := NodesWithoutOutputs(g);
    StartNeeded(g, outputs, q0, q1);
    var q := q0 + q1;
    NoCounts(g);
    while q != []
      invariant counts.Keys <= g.node.Keys && CountsAgree(g, counts, g.nulls)
      invariant OnlyNeeded(g, outputs, counts.Keys, q) && Covered(g, outputs, counts.Keys, q)
      decreases g.node.Keys - counts.Keys, |q|
    {
      var n := q[0];
      FirstAndRest(q);
      if n in counts {
        SkipNeeded(g, outputs, counts.Keys, n, q[1..]);
        q := q[1..];
      } else {
        QueuedIsNode(g, outputs, counts.Keys, q, n);
        var c := GetNumActualInputs(g, n);
        var reached := Reached(g, g.node[n].inputs, true);
        NextNeeded(g, outputs, counts.Keys, n, q[1..], reached);
        ghost var found := counts.Keys;
        CountOneMore(g, counts, n, c);
        counts := counts[n := c];
        assert counts.Keys == found + {n};
        q := q[1..] + reached;
      }
    }
    NeededIsLeast(g, outputs, counts.Keys);
  }

  lemma CountOneMore(g: Snapshot, counts: map<NodeId, nat>, n: NodeId, c: nat)
    requires CountsAgree(g, counts, g.nulls) && n in g.node && c == Pending(g.node[n].inputs, g.nulls)
    ensures CountsAgree(g, counts[n := c], g.nulls)
  {
  }

  lemma QueuedIsNode(g: Snapshot, outputs: seq<ValueId>, found: set<NodeId>, q: seq<NodeId>, n: NodeId)
    requires OnlyNeeded(g, outputs, found, q) && n in q
    ensures n in g.node
  {
  }

  lemma NeededIsLeast(g: Snapshot, outputs: seq<ValueId>, found: set<NodeId>)
    requires OnlyNeeded(g, outputs, found, []) && Covered(g, outputs, found, [])
    ensures Sufficient(g, outputs, found)
    ensures forall nodes: set<NodeId> :: Sufficient(g, outputs, nodes) ==> found <= nodes
  {
  }

  // ---- schedules ----

  /** `chainer_order` of a node; negative until it is scheduled. */
  function OrderOf(order: map<NodeId, int>, n: NodeId): int {
    if n in order then order[n] else -1
  }

  function Unscheduled(order: map<NodeId, int>, nodes: seq<NodeId>): (r: seq<NodeId>)
    ensures forall n :: n in r <==> n in nodes && (n in order ==> order[n] < 0)
  {
    if nodes == [] then []
    else
      var last := nodes[|nodes| - 1];
      Unscheduled(order, nodes[..|nodes| - 1]) + if OrderOf(order, last) < 0 then [last] else []
  }

  lemma UnscheduledNext(order: map<NodeId, int>, nodes: seq<NodeId>, n: NodeId)
    ensures Unscheduled(order, nodes + [n]) == Unscheduled(order, nodes) + if OrderOf(order, n) < 0 then [n] else []
  {
    assert (nodes + [n])[..|nodes|] == nodes;
  }

  /** The nodes a scheduler walks through, in an order in which they can run; in the end no
      necessary node that can run is left out, and all have been visited if nothing is missing
      and there is no cycle, and only then. */
  ghost predicate Walk(g: Snapshot, inputs: seq<ValueId>, counts: map<NodeId, nat>, visited: seq<NodeId>) {
    && Topological(g, inputs, visited)
    && (forall n :: n in visited ==> n in counts)
    && (forall n :: n in counts && n in g.node && Runnable(g, inputs, visited, n) ==> n in visited)
    && ((forall n :: n in counts ==> n in visited) <==>
        Closed(g, inputs, counts.Keys) && g.AcyclicOn(counts.Keys))
  }

  ghost predicate Busy(g: Snapshot, inputs: seq<ValueId>, counts: map<NodeId, nat>, done: set<ValueId>,
                       visited: seq<NodeId>, rest: seq<NodeId>, q: seq<ValueId>) {
    && Progress(g, inputs, counts, done, visited)
    && Waiting(counts, visited, rest)
    && Queued(g, inputs, visited, done, q)
  }

  lemma StartBusy(g: Snapshot, inputs: seq<ValueId>, counts: map<NodeId, nat>, zero: seq<NodeId>)
    requires GoodInputs(g, inputs) && CountsAgree(g, counts, g.nulls)
    requires Distinct(zero) && forall n :: n in zero <==> n in counts && counts[n] == 0
    ensures Busy(g, inputs, counts, {}, [], zero, inputs)
  {
    assert g.nulls + {} == g.nulls;
  }

  lemma VisitNext(g: Snapshot, inputs: seq<ValueId>, counts: map<NodeId, nat>, done: set<ValueId>,
                  visited: seq<NodeId>, n: NodeId, rest: seq<NodeId>, q: seq<ValueId>)
    requires g.Ssa() && GoodInputs(g, inputs) && Busy(g, inputs, counts, done, visited, [n] + rest, q)
    ensures n in g.node && n in counts && n !in visited
    ensures Busy(g, inputs, counts, done, visited + [n], rest, q + g.node[n].outputs)
  {
    assert ([n] + rest)[0] == n;
    RunNext(g, inputs, counts, done, visited, n);
    RunNextQueued(g, inputs, visited, done, q, n);
    ListNextWaiting(counts, visited, rest, n);
  }

  lemma CountNext(g: Snapshot, inputs: seq<ValueId>, before: map<NodeId, nat>, counts: map<NodeId, nat>,
                  done: set<ValueId>, visited: seq<NodeId>, rest: seq<NodeId>, fired: seq<NodeId>, q: seq<ValueId>)
    requires g.Ssa() && GoodInputs(g, inputs) && q != [] && Busy(g, inputs, before, done, visited, rest, q)
    requires counts.Keys == before.Keys && CountsAgree(g, counts, g.nulls + done + {q[0]})
    requires Fired(before, counts, fired)
    ensures Busy(g, inputs, counts, done + {q[0]}, visited, rest + fired, q[1..])
    ensures [] + fired == fired
  {
    assert Available(g, inputs, visited, q[0]);
    ValueCounted(g, inputs, before, counts, done, visited, rest, fired, q[0]);
    PopQueued(g, inputs, visited, done, q);
  }

  lemma BusyFacts(g: Snapshot, inputs: seq<ValueId>, counts: map<NodeId, nat>, done: set<ValueId>,
                  visited: seq<NodeId>, rest: seq<NodeId>, q: seq<ValueId>)
    requires g.Ssa() && GoodInputs(g, inputs) && Busy(g, inputs, counts, done, visited, rest, q)
    ensures CountsAgree(g, counts, g.nulls + done) && |visited| <= |counts.Keys|
    ensures q != [] ==> q[0] !in g.nulls + done || g.Users(q[0]) == []
  {
    DistinctWithin(visited, counts.Keys);
    if q != [] { FrontIsNew(g, inputs, visited, done, q); }
  }

  lemma AllVisited(g: Snapshot, inputs: seq<ValueId>, counts: map<NodeId, nat>, done: set<ValueId>,
                   visited: seq<NodeId>)
    requires g.Ssa() && GoodInputs(g, inputs) && Busy(g, inputs, counts, done, visited, [], [])
    ensures Walk(g, inputs, counts, visited)
  {
    forall n | n in counts && n in g.node && Runnable(g, inputs, visited, n) ensures n in visited {
      forall v | v in g.node[n].inputs ensures v in g.nulls + done {
        if v !in g.nulls { assert Available(g, inputs, visited, v); }
      }
      PendingZero(g.node[n].inputs, g.nulls + done);
    }
    if Closed(g, inputs, counts.Keys) && g.AcyclicOn(counts.Keys) {
      var rank :| g.Ranks(counts.Keys, rank);
      forall n | n in counts ensures n in visited { AllRun(g, inputs, counts, done, visited, rank, n); }
    }
    if forall n :: n in counts ==> n in visited {
      OrderIsAcyclic(g, inputs, visited, counts.Keys);
    }
  }

  // ---- the naive scheduler ----

  method ScheduleFired(g: Snapshot, order: map<NodeId, int>, ghost inputs: seq<ValueId>, ghost counts: map<NodeId, nat>,
                       ghost done: set<ValueId>, ghost visitedIn: seq<NodeId>, fired: seq<NodeId>,
                       nodesIn: seq<NodeId>, qIn: seq<ValueId>)
    returns (nodes: seq<NodeId>, q: seq<ValueId>, ghost visited: seq<NodeId>)
    requires g.Ssa() && GoodInputs(g, inputs) && Busy(g, inputs, counts, done, visitedIn, fired, qIn)
    requires nodesIn == Unscheduled(order, visitedIn)
    ensures Busy(g, inputs, counts, done, visited, [], q) && nodes == Unscheduled(order, visited)
    ensures |visited| == |visitedIn| + |fired| && (fired == [] ==> q == qIn)
  {
    hide *;
    nodes, q, visited := nodesIn, qIn, visitedIn;
    assert fired[0..] == fired;
    var i := 0;
    while i < |fired|
      invariant 0 <= i <= |fired| && |visited| == |visitedIn| + i && (i == 0 ==> q == qIn)
      invariant Busy(g, inputs, counts, done, visited, fired[i..], q) && nodes == Unscheduled(order, visited)
    {
      var n := fired[i];
      assert fired[i..] == [n] + fired[i + 1..];
      VisitNext(g, inputs, counts, done, visited, n, fired[i + 1..], q);
      UnscheduledNext(order, visited, n);
      if OrderOf(order, n) < 0 { nodes := nodes + [n]; }
      visited := visited + [n];
      q := q + g.node[n].outputs;
      i := i + 1;
    }
    assert fired[i..] == [];
  }

  method ScheduleNaively(g: Snapshot, order: map<NodeId, int>, inputs: seq<ValueId>, outputs: seq<ValueId>)
    returns (nodes: seq<NodeId>, ghost necessary: map<NodeId, nat>, ghost visited: seq<NodeId>)
    requires g.DefUse() && g.Ssa() && GoodInputs(g, inputs)
    ensures Sufficient(g, outputs, necessary.Keys)
    ensures forall all: set<NodeId> :: Sufficient(g, outputs, all) ==> necessary.Keys <= all
    ensures Walk(g, inputs, necessary, visited) && nodes == Unscheduled(order, visited)
  {
    var counts := GetNecessaryNodesAndInputCounts(g, outputs);
    necessary := counts;
    var zero := ZeroCounts(counts);
    StartBusy(g, inputs, counts, zero);
    var q: seq<ValueId>;
    nodes, q, visited := ScheduleFired(g, order, inputs, counts, {}, [], zero, [], inputs);
    ghost var done: set<ValueId> := {};
    hide *;
    while q != []
      invariant counts.Keys == necessary.Keys
      invariant Busy(g, inputs, counts, done, visited, [], q) && nodes == Unscheduled(order, visited)
      decreases |necessary.Keys| - |visited|, |q|
    {
      BusyFacts(g, inputs, counts, done, visited, [], q);
      ghost var before := counts;
      var fired: seq<NodeId>;
      counts, fired := MakeValueReady(g, q[0], counts, g.nulls + done);
      CountNext(g, inputs, before, counts, done, visited, [], fired, q);
      done := done + {q[0]};
      nodes, q, visited := ScheduleFired(g, order, inputs, counts, done, visited, fired, nodes, q[1..]);
      BusyFacts(g, inputs, counts, done, visited, [], q);
    }
    AllVisited(g, inputs, counts, done, visited);
    SameWalk(g, inputs, counts, necessary, visited);
  }

  lemma SameWalk(g: Snapshot, inputs: seq<ValueId>, counts: map<NodeId, nat>, necessary: map<NodeId, nat>,
                 visited: seq<NodeId>)
    requires counts.Keys == necessary.Keys && Walk(g, inputs, counts, visited)
    ensures Walk(g, inputs, necessary, visited)
  {
  }

  // ---- the greedy scheduler ----

  type Queue = seq<(int, NodeId)>

  function Nodes(q: Queue): seq<NodeId> {
    seq(|q|, k requires 0 <= k < |q| => q[k].1)
  }

  ghost predicate Ascending(q: Queue) {
    forall i, j :: 0 <= i < j < |q| ==> q[i].0 <= q[j].0
  }

  /** `e` stands at `k`, behind all entries with no greater key and before all others. */
  ghost predicate InsertedAt(q: Queue, e: (int, NodeId), k: nat, r: Queue) {
    && k <= |q| && r == q[..k] + [e] + q[k..]
    && (forall i :: 0 <= i < k ==> q[i].0 <= e.0) && (forall i :: k <= i < |q| ==> e.0 < q[i].0)
  }

  /** std::multimap::emplace: behind the entries with the same key. */
  function Emplace(q: Queue, key: int, n: NodeId): (r: Queue)
    requires Ascending(q)
    ensures Ascending(r) && |r| == |q| + 1
    ensures forall e :: e in r <==> e in q || e == (key, n)
  {
    if q == [] then [(key, n)]
    else
      var last := |q| - 1;
      if q[last].0 <= key then q + [(key, n)]
      else
        assert q == q[..last] + [q[last]];
        var r' := Emplace(q[..last], key, n);
        assert forall k :: 0 <= k < |r'| ==> r'[k] in r';
        r' + [q[last]]
  }

  /** Among nodes that cost the same the one that came first is taken first. */
  lemma {:induction false} EmplacedBehindEqual(q: Queue, key: int, n: NodeId) returns (k: nat)
    requires Ascending(q)
    ensures InsertedAt(q, (key, n), k, Emplace(q, key, n))
  {
    var last := |q| - 1;
    if q == [] || q[last].0 <= key {
      k := |q|;
      assert q[..k] + [(key, n)] + q[k..] == q + [(key, n)];
    } else {
      assert Ascending(q[..last]);
      k := EmplacedBehindEqual(q[..last], key, n);
      hide InsertedAt, Ascending;
      InsertedEarlier(q, (key, n), k, Emplace(q[..last], key, n));
    }
  }

  lemma InsertedEarlier(q: Queue, e: (int, NodeId), k: nat, r: Queue)
    requires q != [] && InsertedAt(q[..|q| - 1], e, k, r) && e.0 < q[|q| - 1].0
    ensures InsertedAt(q, e, k, r + [q[|q| - 1]])
  {
    assert q[..|q| - 1][k..] + [q[|q| - 1]] == q[k..];
  }

  /** What a node costs the greedy scheduler; Relu is held back. */
  ghost function Cost(g: Snapshot, nbytes: ValueId -> int, n: NodeId): int
    requires n in g.node
  {
    Delay.MemoryIncrease(g, nbytes, g.node[n]) + if g.node[n].op == Relu then 1000 * 1000 * 1000 else 0
  }

  /** Each node was the cheapest of those that could run when it was taken. */
  ghost predicate CheapestFirst(g: Snapshot, nbytes: ValueId -> int, inputs: seq<ValueId>, pool: set<NodeId>,
                                visited: seq<NodeId>) {
    forall j, m :: 0 <= j < |visited| && m in pool && m in g.node && visited[j] in g.node
                   && m !in visited[..j] && Runnable(g, inputs, visited[..j], m) ==>
      Cost(g, nbytes, visited[j]) <= Cost(g, nbytes, m)
  }

  /** Every entry of the queue carries the cost of its node. */
  ghost predicate Priced(g: Snapshot, nbytes: ValueId -> int, q: Queue) {
    && Ascending(q)
    && (forall e :: e in q ==> e.1 in g.node && e.0 == Cost(g, nbytes, e.1))
  }

  lemma NodesConcat(q: Queue, e: (int, NodeId))
    ensures Nodes(q + [e]) == Nodes(q) + [e.1]
  {
  }

  lemma {:induction false} EmplaceNodes(q: Queue, key: int, n: NodeId)
    requires Ascending(q)
    ensures multiset(Nodes(Emplace(q, key, n))) == multiset(Nodes(q)) + multiset{n}
  {
    hide Nodes;
    var last := |q| - 1;
    if q == [] {
      assert q + [(key, n)] == [(key, n)];
      NodesMore(q, (key, n));
    } else if q[last].0 <= key {
      NodesMore(q, (key, n));
    } else {
      EmplaceNodes(q[..last], key, n);
      NodesMore(Emplace(q[..last], key, n), q[last]);
      NodesMore(q[..last], q[last]);
      assert q == q[..last] + [q[last]];
    }
  }

  lemma NodesMore(q: Queue, e: (int, NodeId))
    ensures multiset(Nodes(q + [e])) == multiset(Nodes(q)) + multiset{e.1}
  {
    NodesConcat(q, e);
  }

  lemma WaitingPermuted(counts: map<NodeId, nat>, order: seq<NodeId>, rest: seq<NodeId>, other: seq<NodeId>)
    requires Waiting(counts, order, rest) && multiset(rest) == multiset(other)
    ensures Waiting(counts, order, other)
  {
    DistinctMultiset(rest);
    DistinctMultiset(other);
    assert forall n :: n in rest <==> n in multiset(rest);
    assert forall n :: n in other <==> n in multiset(other);
  }

  lemma EnqueueNext(g: Snapshot, nbytes: ValueId -> int, inputs: seq<ValueId>, counts: map<NodeId, nat>,
                    done: set<ValueId>, visited: seq<NodeId>, q: Queue, n: NodeId, more: seq<NodeId>,
                    todo: seq<ValueId>)
    requires Busy(g, inputs, counts, done, visited, Nodes(q) + ([n] + more), todo) && Priced(g, nbytes, q)
    ensures n in g.node
    ensures Busy(g, inputs, counts, done, visited, Nodes(Emplace(q, Cost(g, nbytes, n), n)) + more, todo)
    ensures Priced(g, nbytes, Emplace(q, Cost(g, nbytes, n), n))
  {
    var rest := Nodes(q) + ([n] + more);
    assert rest[|q|] == n;
    assert n in rest;
    EmplaceNodes(q, Cost(g, nbytes, n), n);
    assert rest == Nodes(q) + [n] + more;
    WaitingPermuted(counts, visited, rest, Nodes(Emplace(q, Cost(g, nbytes, n), n)) + more);
  }

  /** The lambda `enqueue_node`, for every node that became ready. */
  method Enqueue(g: Snapshot, nbytes: ValueId -> int, ghost inputs: seq<ValueId>, ghost counts: map<NodeId, nat>,
                 ghost done: set<ValueId>, ghost visited: seq<NodeId>, ghost todo: seq<ValueId>,
                 qIn: Queue, fired: seq<NodeId>)
    returns (q: Queue)
    requires g.DefUse()
    requires Busy(g, inputs, counts, done, visited, Nodes(qIn) + fired, todo) && Priced(g, nbytes, qIn)
    ensures Busy(g, inputs, counts, done, visited, Nodes(q), todo) && Priced(g, nbytes, q)
  {
    hide *;
    q := qIn;
    assert fired[0..] == fired;
    var i := 0;
    while i < |fired|
      invariant 0 <= i <= |fired|
      invariant Busy(g, inputs, counts, done, visited, Nodes(q) + fired[i..], todo) && Priced(g, nbytes, q)
    {
      var n := fired[i];
      assert fired[i..] == [n] + fired[i + 1..];
      EnqueueNext(g, nbytes, inputs, counts, done, visited, q, n, fired[i + 1..], todo);
      var estimated := Delay.EstimateMemoryIncrease(g, nbytes, n);
      if g.node[n].op == Relu { estimated := estimated + 1000 * 1000 * 1000; }
      CostIs(g, nbytes, n);
      PricedAscending(g, nbytes, q);
      q := Emplace(q, estimated, n);
      i := i + 1;
    }
    assert Nodes(q) + fired[i..] == Nodes(q);
  }

  lemma CostIs(g: Snapshot, nbytes: ValueId -> int, n: NodeId)
    requires n in g.node
    ensures Cost(g, nbytes, n) ==
      Delay.MemoryIncrease(g, nbytes, g.node[n]) + if g.node[n].op == Relu then 1000 * 1000 * 1000 else 0
  {
  }

  lemma PricedAscending(g: Snapshot, nbytes: ValueId -> int, q: Queue)
    requires Priced(g, nbytes, q)
    ensures Ascending(q)
  {
  }

  /** The lambda `make_value_ready`, for a list of values. */
  method MakeValuesReady(g: Snapshot, nbytes: ValueId -> int, ghost inputs: seq<ValueId>, countsIn: map<NodeId, nat>,
                         ghost doneIn: set<ValueId>, ghost visited: seq<NodeId>, qIn: Queue, values: seq<ValueId>)
    returns (counts: map<NodeId, nat>, q: Queue, ghost done: set<ValueId>)
    requires g.DefUse() && g.Ssa() && GoodInputs(g, inputs)
    requires Busy(g, inputs, countsIn, doneIn, visited, Nodes(qIn), values) && Priced(g, nbytes, qIn)
    ensures Busy(g, inputs, counts, done, visited, Nodes(q), []) && Priced(g, nbytes, q)
    ensures counts.Keys == countsIn.Keys
  {
    hide *;
    counts, q, done := countsIn, qIn, doneIn;
    assert values[0..] == values;
    var i := 0;
    while i < |values|
      invariant 0 <= i <= |values| && counts.Keys == countsIn.Keys
      invariant Busy(g, inputs, counts, done, visited, Nodes(q), values[i..]) && Priced(g, nbytes, q)
    {
      assert values[i..][0] == values[i] && values[i..][1..] == values[i + 1..];
      BusyFacts(g, inputs, counts, done, visited, Nodes(q), values[i..]);
      ghost var before := counts;
      var fired: seq<NodeId>;
      counts, fired := MakeValueReady(g, values[i], counts, g.nulls + done);
      CountNext(g, inputs, before, counts, done, visited, Nodes(q), fired, values[i..]);
      done := done + {values[i]};
      q := Enqueue(g, nbytes, inputs, counts, done, visited, values[i + 1..], q, fired);
      i := i + 1;
    }
    assert values[i..] == [];
  }

  /** The front of the queue is the cheapest node that can run. */
  lemma TakeCheapest(g: Snapshot, nbytes: ValueId -> int, inputs: seq<ValueId>, counts: map<NodeId, nat>,
                     done: set<ValueId>, visited: seq<NodeId>, q: Queue)
    requires g.Ssa() && GoodInputs(g, inputs) && q != []
    requires Busy(g, inputs, counts, done, visited, Nodes(q), []) && Priced(g, nbytes, q)
    requires CheapestFirst(g, nbytes, inputs, counts.Keys, visited)
    ensures q[0].1 in g.node && q[0].1 in counts && q[0].1 !in visited
    ensures Busy(g, inputs, counts, done, visited + [q[0].1], Nodes(q[1..]), g.node[q[0].1].outputs)
    ensures Priced(g, nbytes, q[1..]) && CheapestFirst(g, nbytes, inputs, counts.Keys, visited + [q[0].1])
  {
    hide g.Ssa, GoodInputs, Progress, Waiting, Queued, CheapestFirst, Runnable;
    var n := q[0].1;
    assert Nodes(q) == [n] + Nodes(q[1..]);
    assert q[0] in q;
    assert [] + g.node[n].outputs == g.node[n].outputs;
    VisitNext(g, inputs, counts, done, visited, n, Nodes(q[1..]), []);
    forall m | m in counts && m in g.node && m !in visited && Runnable(g, inputs, visited, m)
      ensures Cost(g, nbytes, n) <= Cost(g, nbytes, m)
    {
      FirstIsCheapest(g, nbytes, inputs, counts, done, visited, q, m);
    }
    GreedyNext(g, nbytes, inputs, counts.Keys, visited, n);
  }

  /** A runnable node is in the queue, which is sorted by cost. */
  lemma FirstIsCheapest(g: Snapshot, nbytes: ValueId -> int, inputs: seq<ValueId>, counts: map<NodeId, nat>,
                        done: set<ValueId>, visited: seq<NodeId>, q: Queue, m: NodeId)
    requires g.Ssa() && GoodInputs(g, inputs) && q != []
    requires Busy(g, inputs, counts, done, visited, Nodes(q), []) && Priced(g, nbytes, q)
    requires m in counts && m in g.node && m !in visited && Runnable(g, inputs, visited, m)
    ensures q[0].1 in g.node && Cost(g, nbytes, q[0].1) <= Cost(g, nbytes, m)
  {
    hide g.Ssa, GoodInputs;
    forall v | v in g.node[m].inputs ensures v in g.nulls + done {
      if v !in g.nulls { assert Available(g, inputs, visited, v); }
    }
    PendingZero(g.node[m].inputs, g.nulls + done);
    var k :| 0 <= k < |Nodes(q)| && Nodes(q)[k] == m;
    assert q[k] in q && q[0] in q;
  }
  lemma GreedyNext(g: Snapshot, nbytes: ValueId -> int, inputs: seq<ValueId>, pool: set<NodeId>, visited: seq<NodeId>,
                   n: NodeId)
    requires CheapestFirst(g, nbytes, inputs, pool, visited) && n in g.node
    requires forall m :: m in pool && m in g.node && m !in visited && Runnable(g, inputs, visited, m) ==>
      Cost(g, nbytes, n) <= Cost(g, nbytes, m)
    ensures CheapestFirst(g, nbytes, inputs, pool, visited + [n])
  {
    var all := visited + [n];
    assert all[..|visited|] == visited;
    forall j | 0 <= j < |visited| ensures all[..j] == visited[..j] {}
  }

  method ScheduleGreedy(g: Snapshot, nbytes: ValueId -> int, order: map<NodeId, int>,
                        inputs: seq<ValueId>, outputs: seq<ValueId>)
    returns (nodes: seq<NodeId>, ghost necessary: map<NodeId, nat>, ghost visited: seq<NodeId>)
    requires g.DefUse() && g.Ssa() && GoodInputs(g, inputs)
    ensures Sufficient(g, outputs, necessary.Keys)
    ensures forall all: set<NodeId> :: Sufficient(g, outputs, all) ==> necessary.Keys <= all
    ensures Walk(g, inputs, necessary, visited) && nodes == Unscheduled(order, visited)
    ensures CheapestFirst(g, nbytes, inputs, necessary.Keys, visited)
  {
    var counts := GetNecessaryNodesAndInputCounts(g, outputs);
    necessary, visited := counts, [];
    var zero := ZeroCounts(counts);
    StartBusy(g, inputs, counts, zero);
    ghost var done: set<ValueId> := {};
    assert Nodes([]) + zero == zero;
    var q := Enqueue(g, nbytes, inputs, counts, done, visited, inputs, [], zero);
    counts, q, done := MakeValuesReady(g, nbytes, inputs, counts, done, visited, q, inputs);
    nodes := [];
    var hasAlreadyScheduledNodes := false;
    hide *;
    while q != []
      invariant counts.Keys == necessary.Keys && (hasAlreadyScheduledNodes <==> nodes != [])
      invariant Busy(g, inputs, counts, done, visited, Nodes(q), []) && Priced(g, nbytes, q)
      invariant CheapestFirst(g, nbytes, inputs, necessary.Keys, visited) && nodes == Unscheduled(order, visited)
      decreases |necessary.Keys| - |visited|
    {
      var n := q[0].1;
      TakeCheapest(g, nbytes, inputs, counts, done, visited, q);
      q := q[1..];
      UnscheduledNext(order, visited, n);
      if OrderOf(order, n) < 0 {
        nodes := nodes + [n];
        hasAlreadyScheduledNodes := true;
      }
      visited := visited + [n];
      counts, q, done := MakeValuesReady(g, nbytes, inputs, counts, done, visited, q, g.node[n].outputs);
      BusyFacts(g, inputs, counts, done, visited, Nodes(q), []);
    }
    NoNodes(q);
    AllVisited(g, inputs, counts, done, visited);
    SameWalk(g, inputs, counts, necessary, visited);
    if !hasAlreadyScheduledNodes {
      // The flag is set by the nodes of this very call, so only an empty list gets here.
      EmptySchedule(g);
      ghost var index: map<NodeId, nat>, slot: map<NodeId, nat>, slots: seq<seq<NodeId>>;
      nodes, index, slot, slots := Delay.DelaySimpleNodes(g, nbytes, nodes);
      EmptyMultiset(nodes);
    }
  }

  lemma EmptySchedule(g: Snapshot)
    ensures Delay.Schedule(g, [])
  {
  }

  lemma EmptyMultiset(nodes: seq<NodeId>)
    requires multiset(nodes) == multiset([])
    ensures nodes == []
  {
    assert |multiset(nodes)| == |nodes|;
  }

  lemma NoNodes(q: Queue)
    requires q == []
    ensures Nodes(q) == []
  {
  }

  // ---- ScheduleComputation ----

  /** Orders never run against the data flow, and none exceeds `limit`. */
  ghost predicate Consistent(g: Snapshot, order: map<NodeId, int>, limit: int) {
    && (forall n: NodeId :: OrderOf(order, n) <= limit)
    && (forall a, b :: OrderOf(order, b) > 0 && g.Edge(a, b) ==> 0 < OrderOf(order, a) < OrderOf(order, b))
    && (forall a: NodeId, b: NodeId :: a != b && OrderOf(order, a) > 0 ==> OrderOf(order, a) != OrderOf(order, b))
  }

  /** `order` with numbers `start + 1`, `start + 2`, ... given to `nodes`. */
  ghost predicate Numbered(before: map<NodeId, int>, after: map<NodeId, int>, nodes: seq<NodeId>, start: int) {
    && (forall k :: 0 <= k < |nodes| ==> nodes[k] in after && after[nodes[k]] == start + k + 1)
    && (forall n: NodeId :: n !in nodes ==>
          (n in after <==> n in before) && (n in after && n in before ==> after[n] == before[n]))
  }

  lemma NumberedOrders(before: map<NodeId, int>, after: map<NodeId, int>, nodes: seq<NodeId>, start: int)
    requires Numbered(before, after, nodes, start)
    ensures forall k :: 0 <= k < |nodes| ==> OrderOf(after, nodes[k]) == start + k + 1
    ensures forall n: NodeId :: n !in nodes ==> OrderOf(after, n) == OrderOf(before, n)
  {
  }

  ghost predicate SameOrder(visited: seq<NodeId>, nodes: seq<NodeId>) {
    forall i, j, k, l | 0 <= i < j < |visited| && 0 <= k < |nodes| && 0 <= l < |nodes| ::
      nodes[k] == visited[i] && nodes[l] == visited[j] ==> k < l
  }

  lemma SameOrderNext(visited: seq<NodeId>, nodes: seq<NodeId>, n: NodeId, more: seq<NodeId>)
    requires SameOrder(visited, nodes) && n !in visited && (more == [] || more == [n])
    requires forall m :: m in nodes ==> m in visited
    ensures SameOrder(visited + [n], nodes + more)
  {
    var all, r := visited + [n], nodes + more;
    assert forall k :: 0 <= k < |nodes| ==> nodes[k] in visited;
    forall i, j, k, l | 0 <= i < j < |all| && 0 <= k < |r| && 0 <= l < |r| && r[k] == all[i] && r[l] == all[j]
      ensures k < l
    {
      assert i < |visited| && visited[i] == r[k];
      assert k < |nodes|;
      if l < |nodes| { assert j < |visited|; }
    }
  }

  lemma {:induction false} UnscheduledKeepsOrder(order: map<NodeId, int>, visited: seq<NodeId>)
    requires Distinct(visited)
    ensures Distinct(Unscheduled(order, visited))
    ensures SameOrder(visited, Unscheduled(order, visited))
  {
    if visited != [] {
      var last := |visited| - 1;
      var n := visited[last];
      assert visited == visited[..last] + [n];
      UnscheduledKeepsOrder(order, visited[..last]);
      UnscheduledNext(order, visited[..last], n);
      hide SameOrder;
      SameOrderNext(visited[..last], Unscheduled(order, visited[..last]), n, if OrderOf(order, n) < 0 then [n] else []);
      DistinctConcat(Unscheduled(order, visited[..last]), if OrderOf(order, n) < 0 then [n] else []);
    }
  }

  /** The sanity check passes when nothing necessary is left without a positive order. */
  ghost predicate Sane(order: map<NodeId, int>, necessary: set<NodeId>, nodes: seq<NodeId>) {
    forall n :: n in necessary ==> OrderOf(order, n) > 0 || n in nodes
  }

  /** When nothing is missing and there is no cycle, the check fails for order 0 alone: the
      schedulers skip a node of order 0, and the check does not take it for scheduled. */
  lemma SaneUnlessOrderZero(g: Snapshot, inputs: seq<ValueId>, order: map<NodeId, int>, necessary: map<NodeId, nat>,
                            visited: seq<NodeId>)
    requires Walk(g, inputs, necessary, visited)
    requires Closed(g, inputs, necessary.Keys) && g.AcyclicOn(necessary.Keys)
    ensures Sane(order, necessary.Keys, Unscheduled(order, visited)) <==>
      forall n :: n in necessary ==> OrderOf(order, n) != 0
  {
    assert forall n :: n in necessary ==> n in visited;
  }

  /** A graph of one node, which has order 0. */
  ghost predicate OneNodeOfOrderZero(g: Snapshot, order: map<NodeId, int>) {
    && g.node == map[0 := Node(Other(0), [], [0])] && g.users == map[] && g.producer == map[0 := 0]
    && order == map[0 := 0]
  }

  /** There is nothing wrong with that graph, and however it is walked the check fails. */
  lemma OrderZeroFails(g: Snapshot, order: map<NodeId, int>, necessary: map<NodeId, nat>, visited: seq<NodeId>)
    requires OneNodeOfOrderZero(g, order)
    ensures g.DefUse() && g.Ssa() && GoodInputs(g, []) && Closed(g, [], {0}) && g.AcyclicOn({0})
    ensures
      Sufficient(g, [0], necessary.Keys) && Walk(g, [], necessary, visited) ==>
        !Sane(order, necessary.Keys, Unscheduled(order, visited))
  {
    forall n: NodeId, v: ValueId ensures multiset(g.Users(v))[n] == g.Reads(n, v) {}
    assert g.Ranks({0}, map[0 := 0]);
    if Sufficient(g, [0], necessary.Keys) && Walk(g, [], necessary, visited) {
      assert g.producer[0] in necessary.Keys;
      assert OrderOf(order, 0) == 0;
    }
  }

  /** On a graph with nothing scheduled yet the check finds a missing input or a cycle. */
  lemma SaneOnFreshGraph(g: Snapshot, inputs: seq<ValueId>, order: map<NodeId, int>, necessary: map<NodeId, nat>,
                         visited: seq<NodeId>)
    requires Walk(g, inputs, necessary, visited) && forall n :: n in necessary && n in order ==> order[n] < 0
    ensures Sane(order, necessary.Keys, Unscheduled(order, visited)) <==>
      Closed(g, inputs, necessary.Keys) && g.AcyclicOn(necessary.Keys)
  {
    assert forall n :: n in visited ==> n in necessary;
  }

  /** Scheduling some more nodes keeps all orders consistent with the data flow. */
  lemma NumberingIsConsistent(g: Snapshot, inputs: seq<ValueId>, before: map<NodeId, int>, after: map<NodeId, int>,
                              outputs: seq<ValueId>, necessary: map<NodeId, nat>, visited: seq<NodeId>, start: int)
    requires g.Ssa() && Sufficient(g, outputs, necessary.Keys) && Walk(g, inputs, necessary, visited)
    requires GoodInputs(g, inputs)
    requires start >= 0 && Consistent(g, before, start)
    requires Sane(before, necessary.Keys, Unscheduled(before, visited))
    requires Numbered(before, after, Unscheduled(before, visited), start)
    ensures Consistent(g, after, start + |Unscheduled(before, visited)|)
  {
    hide *;
    var nodes := Unscheduled(before, visited);
    ConsistentParts(g, before, start);
    WalkDistinct(g, inputs, before, necessary, visited);
    UnscheduledWaits(before, visited);
    NumbersApart(before, after, nodes, start);
    forall a, b | OrderOf(after, b) > 0 && g.Edge(a, b) ensures 0 < OrderOf(after, a) < OrderOf(after, b) {
      if b in nodes {
        NumberedEdge(g, inputs, before, after, outputs, necessary, visited, start, a, b);
      } else {
        StaysBefore(g, before, after, nodes, start, a, b);
      }
    }
    ConsistentParts(g, after, start + |nodes|);
  }

  lemma ConsistentParts(g: Snapshot, order: map<NodeId, int>, limit: int)
    ensures Consistent(g, order, limit) <==>
      && (forall n: NodeId :: OrderOf(order, n) <= limit)
      && (forall a, b :: OrderOf(order, b) > 0 && g.Edge(a, b) ==> 0 < OrderOf(order, a) < OrderOf(order, b))
      && (forall a: NodeId, b: NodeId :: a != b && OrderOf(order, a) > 0 ==> OrderOf(order, a) != OrderOf(order, b))
  {
    hide OrderOf;
  }

  lemma UnscheduledWaits(order: map<NodeId, int>, nodes: seq<NodeId>)
    ensures forall n :: n in Unscheduled(order, nodes) ==> OrderOf(order, n) < 0
  {
    hide Unscheduled;
  }

  /** Along an edge between nodes scheduled earlier. */
  lemma StaysBefore(g: Snapshot, before: map<NodeId, int>, after: map<NodeId, int>, nodes: seq<NodeId>, start: int,
                    a: NodeId, b: NodeId)
    requires Consistent(g, before, start) && Numbered(before, after, nodes, start) && b !in nodes && g.Edge(a, b)
    requires forall n :: n in nodes ==> OrderOf(before, n) < 0
    requires OrderOf(after, b) > 0
    ensures 0 < OrderOf(after, a) < OrderOf(after, b)
  {
    NumberedOrders(before, after, nodes, start);
    hide Numbered, OrderOf;
  }

  /** New orders are above the old ones, and all differ. */
  lemma NumbersApart(before: map<NodeId, int>, after: map<NodeId, int>, nodes: seq<NodeId>, start: int)
    requires Numbered(before, after, nodes, start) && start >= 0 && Distinct(nodes)
    requires forall n: NodeId :: OrderOf(before, n) <= start
    requires forall a: NodeId, b: NodeId :: a != b && OrderOf(before, a) > 0 ==>
      OrderOf(before, a) != OrderOf(before, b)
    ensures forall n: NodeId :: OrderOf(after, n) <= start + |nodes|
    ensures forall a: NodeId, b: NodeId :: a != b && OrderOf(after, a) > 0 ==> OrderOf(after, a) != OrderOf(after, b)
  {
    NumberedOrders(before, after, nodes, start);
    hide Numbered, OrderOf, Distinct;
    forall n: NodeId ensures OrderOf(after, n) <= start + |nodes| && (n in nodes ==> OrderOf(after, n) > start) {
      if n in nodes { var k :| 0 <= k < |nodes| && nodes[k] == n; }
    }
    forall a: NodeId, b: NodeId | a != b && OrderOf(after, a) > 0 ensures OrderOf(after, a) != OrderOf(after, b) {
      if a in nodes && b in nodes {
        var k :| 0 <= k < |nodes| && nodes[k] == a;
        var l :| 0 <= l < |nodes| && nodes[l] == b;
      }
    }
  }

  lemma NumberedEdge(g: Snapshot, inputs: seq<ValueId>, before: map<NodeId, int>, after: map<NodeId, int>,
                     outputs: seq<ValueId>, necessary: map<NodeId, nat>, visited: seq<NodeId>, start: int,
                     a: NodeId, b: NodeId)
    requires g.Ssa() && Sufficient(g, outputs, necessary.Keys) && Walk(g, inputs, necessary, visited)
    requires GoodInputs(g, inputs)
    requires start >= 0 && Consistent(g, before, start)
    requires Sane(before, necessary.Keys, Unscheduled(before, visited))
    requires Numbered(before, after, Unscheduled(before, visited), start)
    requires b in Unscheduled(before, visited) && g.Edge(a, b)
    ensures 0 < OrderOf(after, a) < OrderOf(after, b)
  {
    var nodes := Unscheduled(before, visited);
    var i, j := EarlierInWalk(g, inputs, visited, a, b);
    EdgeIsNecessary(g, outputs, necessary.Keys, a, b);
    NumberedOrders(before, after, nodes, start);
    hide Topological, Sufficient, Numbered;
    var l :| 0 <= l < |nodes| && nodes[l] == b;
    if a in nodes {
      var k :| 0 <= k < |nodes| && nodes[k] == a;
      UnscheduledKeepsOrder(before, visited);
    }
  }

  lemma EarlierInWalk(g: Snapshot, inputs: seq<ValueId>, visited: seq<NodeId>, a: NodeId, b: NodeId)
    returns (i: nat, j: nat)
    requires g.Ssa() && GoodInputs(g, inputs) && Topological(g, inputs, visited) && b in visited && g.Edge(a, b)
    ensures i < j < |visited| && visited[i] == a && visited[j] == b
  {
    var v :| v in g.node[b].inputs && v !in g.nulls && v in g.node[a].outputs;
    WriterIs(g, a, v);
    j :| 0 <= j < |visited| && visited[j] == b;
    assert Runnable(g, inputs, visited[..j], visited[j]);
    assert Available(g, inputs, visited[..j], v);
    i :| 0 <= i < |visited[..j]| && visited[..j][i] == a;
  }

  lemma EdgeIsNecessary(g: Snapshot, outputs: seq<ValueId>, necessary: set<NodeId>, a: NodeId, b: NodeId)
    requires g.Ssa() && Sufficient(g, outputs, necessary) && b in necessary && g.Edge(a, b)
    ensures a in necessary
  {
    var v :| v in g.node[b].inputs && v !in g.nulls && v in g.node[a].outputs;
    WriterIs(g, a, v);
  }

  /** Exactly `nodes` have an order, and the orders are those after `start` up to `next`, each once. */
  ghost predicate OrderedAll(order: map<NodeId, int>, nodes: set<NodeId>, start: int, next: int) {
    && order.Keys == nodes
    && (forall n :: n in order ==> start < order[n] <= next)
    && (forall a, b :: a in order && b in order && order[a] == order[b] ==> a == b)
    && (forall k :: start < k <= next ==> IsOrder(order, k))
  }

  ghost predicate IsOrder(order: map<NodeId, int>, k: int) {
    exists n :: n in order && order[n] == k
  }

  lemma FreshIsAll(g: Snapshot, inputs: seq<ValueId>, necessary: map<NodeId, nat>, visited: seq<NodeId>)
    requires Walk(g, inputs, necessary, visited) && Sane(map[], necessary.Keys, Unscheduled(map[], visited))
    ensures SetOf(Unscheduled(map[], visited)) == necessary.Keys
  {
    hide Topological, Runnable, Closed, Unscheduled;
  }

  lemma NumberedAll(order: map<NodeId, int>, nodes: seq<NodeId>, start: int)
    requires Numbered(map[], order, nodes, start) && Distinct(nodes)
    ensures OrderedAll(order, SetOf(nodes), start, start + |nodes|)
  {
    hide Distinct;
    forall n | n in nodes ensures n in order && start < order[n] <= start + |nodes| && nodes[order[n] - start - 1] == n
    {
      var k :| 0 <= k < |nodes| && nodes[k] == n;
    }
    forall k | start < k <= start + |nodes| ensures IsOrder(order, k) { assert order[nodes[k - start - 1]] == k; }
  }

  /** On a graph that has just been made, all that is necessary is scheduled. */
  lemma FreshIsOrdered(g: Snapshot, inputs: seq<ValueId>, order: map<NodeId, int>, necessary: map<NodeId, nat>,
                       visited: seq<NodeId>, start: int)
    requires Walk(g, inputs, necessary, visited) && Sane(map[], necessary.Keys, Unscheduled(map[], visited))
    requires Numbered(map[], order, Unscheduled(map[], visited), start) && Distinct(Unscheduled(map[], visited))
    ensures OrderedAll(order, necessary.Keys, start, start + |Unscheduled(map[], visited)|)
  {
    hide *;
    FreshIsAll(g, inputs, necessary, visited);
    NumberedAll(order, Unscheduled(map[], visited), start);
  }

  /** Orders that follow the data: what a node reads comes from nodes with smaller ones. */
  ghost predicate FollowsData(g: Snapshot, order: map<NodeId, int>) {
    forall a, b :: a in order && b in order && g.Edge(a, b) ==> order[a] < order[b]
  }

  lemma FreshFollowsData(g: Snapshot, inputs: seq<ValueId>, order: map<NodeId, int>, necessary: map<NodeId, nat>,
                         visited: seq<NodeId>, start: int)
    requires g.Ssa() && GoodInputs(g, inputs)
    requires Walk(g, inputs, necessary, visited) && Sane(map[], necessary.Keys, Unscheduled(map[], visited))
    requires Numbered(map[], order, Unscheduled(map[], visited), start)
    ensures FollowsData(g, order)
  {
    var nodes := Unscheduled(map[], visited);
    WalkDistinct(g, inputs, map[], necessary, visited);
    NumberedAll(order, nodes, start);
    WalkParts(g, inputs, necessary, visited);
    UnscheduledKeepsOrder(map[], visited);
    hide Topological, OrderedAll, Sane, Unscheduled, Walk, Distinct, Closed;
    forall a, b | a in order && b in order && g.Edge(a, b) ensures order[a] < order[b] {
      OrderedIn(order, nodes, start, a);
      OrderedIn(order, nodes, start, b);
      var i, j := EarlierInWalk(g, inputs, visited, a, b);
      var k :| 0 <= k < |nodes| && nodes[k] == a;
      var l :| 0 <= l < |nodes| && nodes[l] == b;
    }
  }

  lemma WalkParts(g: Snapshot, inputs: seq<ValueId>, counts: map<NodeId, nat>, visited: seq<NodeId>)
    requires Walk(g, inputs, counts, visited)
    ensures Topological(g, inputs, visited) && Distinct(visited)
  {
  }

  lemma OrderedIn(order: map<NodeId, int>, nodes: seq<NodeId>, start: int, n: NodeId)
    requires OrderedAll(order, SetOf(nodes), start, start + |nodes|) && n in order
    ensures n in nodes
  {
    assert n in SetOf(nodes);
  }

  datatype SchedulerType = Naive | Greedy

  /** A graph whose nodes are being given their `chainer_order`. */
  class ScheduledGraph {
    const g: Snapshot
    const nbytes: ValueId -> int
    var chainerOrder: map<NodeId, int>

    constructor (g: Snapshot, nbytes: ValueId -> int)
      ensures this.g == g && this.nbytes == nbytes && chainerOrder == map[]
    {
      this.g, this.nbytes, chainerOrder := g, nbytes, map[];
    }

    /** Recounts the necessary nodes and strikes out those that have an order or get one. */
    method CheckSanity(outputs: seq<ValueId>, nodes: seq<NodeId>) returns (ok: bool, ghost necessary: set<NodeId>)
      requires g.DefUse() && g.Ssa()
      ensures Sufficient(g, outputs, necessary)
      ensures forall all: set<NodeId> :: Sufficient(g, outputs, all) ==> necessary <= all
      ensures ok <==> Sane(chainerOrder, necessary, nodes)
    {
      var counts := GetNecessaryNodesAndInputCounts(g, outputs);
      necessary := counts.Keys;
      var left, rest := counts.Keys, g.node.Keys;
      assert forall n :: n in counts ==> n in g.node;
      while rest != {}
        invariant rest <= g.node.Keys
        invariant forall n :: n in left <==> n in necessary && (n in rest || OrderOf(chainerOrder, n) <= 0)
      {
        var n :| n in rest;
        rest := rest - {n};
        if OrderOf(chainerOrder, n) > 0 { left := left - {n}; }
      }
      var i := 0;
      while i < |nodes|
        invariant 0 <= i <= |nodes|
        invariant forall n :: n in left <==>
          n in necessary && OrderOf(chainerOrder, n) <= 0 && n !in nodes[..i]
      {
        left := left - {nodes[i]};
        i := i + 1;
      }
      ok := left == {};
    }

    /** Gives the next orders to the nodes that `outputs` need.  `ok` is false when the
        program would abort; no order has been given then. */
    method ScheduleComputation(inputs: seq<ValueId>, outputs: seq<ValueId>, order: int, kind: SchedulerType)
      returns (ok: bool, next: int, ghost necessary: map<NodeId, nat>, ghost visited: seq<NodeId>)
      requires g.DefUse() && g.Ssa() && GoodInputs(g, inputs)
      modifies this
      ensures Sufficient(g, outputs, necessary.Keys)
      ensures forall all: set<NodeId> :: Sufficient(g, outputs, all) ==> necessary.Keys <= all
      ensures Walk(g, inputs, necessary, visited)
      ensures kind == Greedy ==> CheapestFirst(g, nbytes, inputs, necessary.Keys, visited)
      ensures ok <==> Sane(old(chainerOrder), necessary.Keys, Unscheduled(old(chainerOrder), visited))
      ensures !ok ==> chainerOrder == old(chainerOrder)
      ensures ok ==> next == order + |Unscheduled(old(chainerOrder), visited)|
      ensures ok ==> Numbered(old(chainerOrder), chainerOrder, Unscheduled(old(chainerOrder), visited), order)
      ensures ok && order >= 0 && Consistent(g, old(chainerOrder), order) ==> Consistent(g, chainerOrder, next)
      // As the constructor leaves the graph, nothing has an order.
      ensures old(chainerOrder) == map[] ==>
        (ok <==> Closed(g, inputs, necessary.Keys) && g.AcyclicOn(necessary.Keys))
      ensures ok && old(chainerOrder) == map[] ==>
        OrderedAll(chainerOrder, necessary.Keys, order, next) && FollowsData(g, chainerOrder)
    {
      hide *;
      var nodes: seq<NodeId>;
      match kind {
        case Naive => nodes, necessary, visited := ScheduleNaively(g, chainerOrder, inputs, outputs);
        case Greedy => nodes, necessary, visited := ScheduleGreedy(g, nbytes, chainerOrder, inputs, outputs);
      }
      ghost var again: set<NodeId>;
      ok, again := CheckSanity(outputs, nodes);
      assert again == necessary.Keys;
      next := order;
      if chainerOrder == map[] { SaneOnFreshGraph(g, inputs, chainerOrder, necessary, visited); }
      if ok {
        WalkDistinct(g, inputs, chainerOrder, necessary, visited);
        next := SetOrders(nodes, order);
        if order >= 0 && Consistent(g, old(chainerOrder), order) {
          NumberingIsConsistent(g, inputs, old(chainerOrder), chainerOrder, outputs, necessary, visited, order);
        }
        if old(chainerOrder) == map[] {
          FreshIsOrdered(g, inputs, chainerOrder, necessary, visited, order);
          FreshFollowsData(g, inputs, chainerOrder, necessary, visited, order);
        }
      }
    }

    method SetOrders(nodes: seq<NodeId>, order: int) returns (next: int)
      requires Distinct(nodes)
      modifies this
      ensures next == order + |nodes| && Numbered(old(chainerOrder), chainerOrder, nodes, order)
    {
      next := order;
      var i := 0;
      while i < |nodes|
        invariant 0 <= i <= |nodes| && next == order + i
        invariant Numbered(old(chainerOrder), chainerOrder, nodes[..i], order)
      {
        next := next + 1;
        chainerOrder := chainerOrder[nodes[i] := next];
        i := i + 1;
      }
      assert nodes[..i] == nodes;
    }
  }

  lemma WalkDistinct(g: Snapshot, inputs: seq<ValueId>, order: map<NodeId, int>, necessary: map<NodeId, nat>,
                     visited: seq<NodeId>)
    requires Walk(g, inputs, necessary, visited)
    ensures Distinct(Unscheduled(order, visited))
  {
    UnscheduledKeepsOrder(order, visited);
  }
}
